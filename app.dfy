/**
 * The app's own rules around the search: the gate in front of listing a
 * room, the hand-off to a payment provider, the listing and account records
 * the forms build, and the top-level state the screens share (session user,
 * query, filters, shown rooms, open dialogs).
 */
module App {
  import opened Types
  import opened Text
  import opened GeminiService
  import opened Search
  import Db
  import Constants

  /** What "List a Room" opens. */
  datatype ListingForm = OpenKycForm | OpenAddRoomForm

  /** "List a Room": the add-room form for a verified user, the KYC form for anyone else (or no one). */
  function ListRoomAction(currentUser: Option<User>): (a: ListingForm)
    ensures a == OpenAddRoomForm <==> currentUser.Some? && currentUser.value.kycStatus == Verified
  {
    if currentUser.Some? && currentUser.value.kycStatus == Verified then OpenAddRoomForm else OpenKycForm
  }

  /** Once KYC has been submitted for a user, listing a room opens the add-room form. */
  lemma ListingOpensAfterKyc(u: User, docs: KycDocuments)
    ensures ListRoomAction(Some(Db.KycVerified(u, docs))) == OpenAddRoomForm
    ensures u.kycStatus != Verified ==> ListRoomAction(Some(u)) == OpenKycForm
  {
  }

  datatype Provider = Esewa | Khalti

  /** How the provider is named in the messages. */
  function ProviderName(p: Provider): string {
    match p
    case Esewa => "esewa"
    case Khalti => "khalti"
  }

  /** The provider's site. */
  function ProviderUrl(p: Provider): string {
    match p
    case Esewa => "https://esewa.com.np"
    case Khalti => "https://khalti.com"
  }

  /** The owner's wallet id for the provider, if the listing has one (`room.paymentInfo?.esewaId`). */
  function OwnerWalletId(room: Room, p: Provider): Option<string> {
    match room.paymentInfo
    case None => None
    case Some(info) => if p == Esewa then info.esewaId else info.khaltiId
  }

  /** A JavaScript truth test on an optional string: present and not empty. */
  predicate IsSet(s: Option<string>) {
    s.Some? && s.value != ""
  }

  /** The outward effects of a payment request, in the order they happen. */
  datatype PaymentEffect = RequireKyc | ShowAlert(message: string) | OpenTab(url: string) | Rent

  /**
   * A payment request from the room page. An unverified user is only sent to
   * KYC. A verified user sees a message (naming the owner's wallet id when
   * the listing has one), is sent to the provider's site, and the rental
   * goes ahead either way.
   */
  function PaymentEffects(user: User, room: Room, p: Provider): (es: seq<PaymentEffect>)
    ensures user.kycStatus != Verified ==> es == [RequireKyc]
    ensures user.kycStatus == Verified ==>
              |es| == 3 && es[0].ShowAlert? && es[1] == OpenTab(ProviderUrl(p)) && es[2] == Rent
    ensures user.kycStatus == Verified && IsSet(OwnerWalletId(room, p)) ==>
              es[0].message == "Owner's " + ProviderName(p) + " ID: " + OwnerWalletId(room, p).value
                               + " copied! Redirecting to " + ProviderName(p) + "..."
    ensures user.kycStatus == Verified && !IsSet(OwnerWalletId(room, p)) ==>
              es[0].message == "Redirecting to " + ProviderName(p) + " for manual transfer..."
  {
    if user.kycStatus != Verified then [RequireKyc]
    else
      var id := OwnerWalletId(room, p);
      var message :=
        if IsSet(id) then
          "Owner's " + ProviderName(p) + " ID: " + id.value + " copied! Redirecting to " + ProviderName(p) + "..."
        else "Redirecting to " + ProviderName(p) + " for manual transfer...";
      [ShowAlert(message), OpenTab(ProviderUrl(p)), Rent]
  }

  /**
   * A payment request rents and redirects exactly when the user is verified,
   * and which listing it is (and whether its owner gave a wallet id) changes
   * nothing but the message.
   */
  lemma PaymentNeedsOnlyVerification(user: User, room1: Room, room2: Room, p: Provider)
    ensures Rent in PaymentEffects(user, room1, p) <==> user.kycStatus == Verified
    ensures OpenTab(ProviderUrl(p)) in PaymentEffects(user, room1, p) <==> user.kycStatus == Verified
    ensures PaymentEffects(user, room1, p)[1..] == PaymentEffects(user, room2, p)[1..]
    ensures |PaymentEffects(user, room1, p)| == |PaymentEffects(user, room2, p)|
  {
    var es := PaymentEffects(user, room1, p);
    if user.kycStatus != Verified {
      assert es == [RequireKyc];
    }
  }

  /** A form field of the listing form: an empty entry means no value (`x || undefined`). */
  function OrAbsent(s: string): (r: Option<string>)
    ensures r.None? <==> s == ""
    ensures r.Some? ==> r.value == s
  {
    if s == "" then None else Some(s)
  }

  /**
   * The listing the add-room form submits. The id, the picture's stamp and
   * the parsed price are inputs (the clock and `parseInt` are not modelled).
   */
  function NewRoom(id: string, owner: User, title: string, description: string, price: int,
                   location: string, features: seq<string>, esewaId: string, khaltiId: string,
                   stamp: nat): (r: Room)
    ensures r.id == id && r.ownerId == owner.id && r.price == price && r.features == features
    ensures r.title == title && r.description == description && r.location == location
    ensures r.isAvailable && !r.isExample
    ensures r.images == ["https://picsum.photos/600/400?random=" + NatToString(stamp)]
    ensures r.paymentInfo == Some(PaymentInfo(OrAbsent(esewaId), OrAbsent(khaltiId)))
  {
    Room(id, owner.id, title, description, price, location, features,
         ["https://picsum.photos/600/400?random=" + NatToString(stamp)],
         true, false, Some(PaymentInfo(OrAbsent(esewaId), OrAbsent(khaltiId))))
  }

  /**
   * A new listing is stored as it is, and a payment request on it names the
   * owner's wallet id exactly when the owner typed one.
   */
  lemma NewRoomStoredAndPayable(id: string, owner: User, title: string, description: string, price: int,
                                location: string, features: seq<string>, esewaId: string, khaltiId: string,
                                stamp: nat)
    ensures Db.AsUserListing(NewRoom(id, owner, title, description, price, location, features, esewaId, khaltiId, stamp))
            == NewRoom(id, owner, title, description, price, location, features, esewaId, khaltiId, stamp)
    ensures IsSet(OwnerWalletId(NewRoom(id, owner, title, description, price, location, features, esewaId, khaltiId, stamp), Esewa))
            <==> esewaId != ""
    ensures IsSet(OwnerWalletId(NewRoom(id, owner, title, description, price, location, features, esewaId, khaltiId, stamp), Khalti))
            <==> khaltiId != ""
  {
  }

  /** The account the sign-up form creates: a seeker, KYC not started, password scrambled with `encrypt`. */
  function NewUser(id: string, name: string, email: string, password: string, encrypt: string -> string): (u: User)
    ensures u.id == id && u.username == name && u.email == email
    ensures u.passwordHash == encrypt(password)
    ensures u.role == Seeker && u.kycStatus == NotStarted
    ensures u.bio.None? && u.avatar.None? && u.phone.None? && u.kycDocuments.None?
  {
    User(id, name, email, encrypt(password), Seeker, NotStarted, None, None, None, None)
  }

  /**
   * Signing up stores the password the way signing in checks it, so signing
   * in right after finds an account: the new one, unless an earlier account
   * has the same email and password.
   */
  lemma SignUpThenSignInSucceeds(users: seq<User>, id: string, name: string, email: string, password: string,
                                 encrypt: string -> string)
    ensures Db.FindByCredentials(users + [NewUser(id, name, email, password, encrypt)], email, encrypt(password)).Some?
    ensures Db.FindByCredentials(users, email, encrypt(password)).None? ==>
              Db.FindByCredentials(users + [NewUser(id, name, email, password, encrypt)], email, encrypt(password))
              == Some(NewUser(id, name, email, password, encrypt))
  {
    Db.LoginAfterSave(users, NewUser(id, name, email, password, encrypt), encrypt(password));
  }

  /** The state the screens share. */
  class AppState {
    var currentUser: Option<User>
    var searchQuery: string
    var isSearching: bool
    /** The rooms the screens show. */
    var rooms: seq<Room>
    var filters: SearchFilters
    var selectedRoom: Option<Room>
    var showKyc: bool
    var showAddRoom: bool

    /** The initial state: no user, the seed catalog shown, default filters, nothing open. */
    constructor ()
      ensures currentUser == None && searchQuery == "" && !isSearching
      ensures rooms == Constants.MockRooms && filters == DefaultFilters
      ensures selectedRoom == None && !showKyc && !showAddRoom
    {
      currentUser := None;
      searchQuery := "";
      isSearching := false;
      rooms := Constants.MockRooms;
      filters := DefaultFilters;
      selectedRoom := None;
      showKyc := false;
      showAddRoom := false;
    }

    /** The first render: the stored session user, if any, and the stored catalog. */
    method Mount(store: Db.LocalStore)
      modifies this
      ensures currentUser == (if store.current.Some? then store.current else old(currentUser))
      ensures rooms == store.Rooms()
      ensures searchQuery == old(searchQuery) && filters == old(filters) && isSearching == old(isSearching)
      ensures selectedRoom == old(selectedRoom) && showKyc == old(showKyc) && showAddRoom == old(showAddRoom)
    {
      var user := store.GetCurrentUser();
      if user.Some? {
        currentUser := user;
      }
      rooms := store.GetRooms();
    }

    /** Typing in the search box. */
    method SetSearchQuery(query: string)
      modifies this
      ensures searchQuery == query
      ensures currentUser == old(currentUser) && rooms == old(rooms) && filters == old(filters)
      ensures isSearching == old(isSearching) && selectedRoom == old(selectedRoom)
      ensures showKyc == old(showKyc) && showAddRoom == old(showAddRoom)
    {
      searchQuery := query;
    }

    /**
     * `performSearch`: the shown rooms become the search results for the
     * current query and filters over the stored catalog, computed in the
     * steps `SearchResults` spells out. The query and filters are those the
     * handler was created with. The busy flag is raised for the duration and
     * lowered at the end.
     */
    method PerformSearch(store: Db.LocalStore, matcher: Matcher)
      modifies this
      ensures rooms == SearchResults(old(searchQuery), old(filters), store.Rooms(), matcher)
      ensures !isSearching
      ensures currentUser == old(currentUser) && searchQuery == old(searchQuery) && filters == old(filters)
      ensures selectedRoom == old(selectedRoom) && showKyc == old(showKyc) && showAddRoom == old(showAddRoom)
    {
      var query, current := searchQuery, filters;
      isSearching := true;
      var allRooms := store.GetRooms();
      var results := SearchResults(query, current, allRooms, matcher);
      rooms := results;
      isSearching := false;
    }

    /** An amenity button of the search panel. */
    method ToggleFilter(f: string)
      modifies this
      ensures filters == ToggleFilterFeature(old(filters), f)
      ensures currentUser == old(currentUser) && searchQuery == old(searchQuery) && rooms == old(rooms)
      ensures isSearching == old(isSearching) && selectedRoom == old(selectedRoom)
      ensures showKyc == old(showKyc) && showAddRoom == old(showAddRoom)
    {
      filters := ToggleFilterFeature(filters, f);
    }

    /** The price slider. */
    method SetMaxPrice(max: int)
      modifies this
      ensures filters == WithMaxPrice(old(filters), max)
      ensures currentUser == old(currentUser) && searchQuery == old(searchQuery) && rooms == old(rooms)
      ensures isSearching == old(isSearching) && selectedRoom == old(selectedRoom)
      ensures showKyc == old(showKyc) && showAddRoom == old(showAddRoom)
    {
      filters := WithMaxPrice(filters, max);
    }

    /** The "Reset" button of the search panel. */
    method ResetFilters()
      modifies this
      ensures filters == DefaultFilters
      ensures currentUser == old(currentUser) && searchQuery == old(searchQuery) && rooms == old(rooms)
      ensures isSearching == old(isSearching) && selectedRoom == old(selectedRoom)
      ensures showKyc == old(showKyc) && showAddRoom == old(showAddRoom)
    {
      filters := DefaultFilters;
    }

    /** `handleListRoom`: opens the form `ListRoomAction` chooses. */
    method ListRoom()
      modifies this
      ensures ListRoomAction(currentUser) == OpenKycForm ==> showKyc && showAddRoom == old(showAddRoom)
      ensures ListRoomAction(currentUser) == OpenAddRoomForm ==> showAddRoom && showKyc == old(showKyc)
      ensures currentUser == old(currentUser) && searchQuery == old(searchQuery) && rooms == old(rooms)
      ensures filters == old(filters) && isSearching == old(isSearching) && selectedRoom == old(selectedRoom)
    {
      if currentUser.Some? && currentUser.value.kycStatus == Verified {
        showAddRoom := true;
      } else {
        showKyc := true;
      }
    }

    /** `handleAddRoom`: the new listing is shown first, ahead of the rooms already shown. */
    method AddRoom(newRoom: Room)
      modifies this
      ensures rooms == [newRoom] + old(rooms)
      ensures currentUser == old(currentUser) && searchQuery == old(searchQuery) && filters == old(filters)
      ensures isSearching == old(isSearching) && selectedRoom == old(selectedRoom)
      ensures showKyc == old(showKyc) && showAddRoom == old(showAddRoom)
    {
      rooms := [newRoom] + rooms;
    }

    /**
     * Submitting the add-room form: the listing is stored, shown first, and
     * the form closes.
     */
    method SubmitNewRoom(store: Db.LocalStore, id: string, title: string, description: string, price: int,
                         location: string, features: seq<string>, esewaId: string, khaltiId: string, stamp: nat)
      returns (r: Room)
      requires currentUser.Some?
      modifies this, store
      ensures r == NewRoom(id, old(currentUser).value, title, description, price, location, features, esewaId, khaltiId, stamp)
      ensures store.rooms == Some([r] + old(store.Rooms()))
      ensures store.users == old(store.users) && store.current == old(store.current)
      ensures store.notifications == old(store.notifications)
      ensures old(store.Valid()) ==> store.Valid()
      ensures rooms == [r] + old(rooms) && !showAddRoom
      ensures currentUser == old(currentUser) && searchQuery == old(searchQuery) && filters == old(filters)
      ensures isSearching == old(isSearching) && selectedRoom == old(selectedRoom) && showKyc == old(showKyc)
    {
      r := NewRoom(id, currentUser.value, title, description, price, location, features, esewaId, khaltiId, stamp);
      store.AddRoom(r);
      AddRoom(r);
      showAddRoom := false;
    }

    /** Opening a room's page. */
    method SelectRoom(room: Room)
      modifies this
      ensures selectedRoom == Some(room)
      ensures currentUser == old(currentUser) && searchQuery == old(searchQuery) && rooms == old(rooms)
      ensures filters == old(filters) && isSearching == old(isSearching)
      ensures showKyc == old(showKyc) && showAddRoom == old(showAddRoom)
    {
      selectedRoom := Some(room);
    }

    /**
     * A payment button on the open room page: an unverified user is sent to
     * the KYC form; otherwise the rental closes the page. Returns the effects.
     */
    method RequestPayment(p: Provider) returns (es: seq<PaymentEffect>)
      requires currentUser.Some? && selectedRoom.Some?
      modifies this
      ensures es == PaymentEffects(old(currentUser).value, old(selectedRoom).value, p)
      ensures old(currentUser).value.kycStatus != Verified ==> showKyc && selectedRoom == old(selectedRoom)
      ensures old(currentUser).value.kycStatus == Verified ==> selectedRoom == None && showKyc == old(showKyc)
      ensures currentUser == old(currentUser) && searchQuery == old(searchQuery) && rooms == old(rooms)
      ensures filters == old(filters) && isSearching == old(isSearching) && showAddRoom == old(showAddRoom)
    {
      es := PaymentEffects(currentUser.value, selectedRoom.value, p);
      if currentUser.value.kycStatus != Verified {
        showKyc := true;
      } else {
        selectedRoom := None;
      }
    }

    /**
     * The sign-up form: stores the new account, signs in with the same
     * credentials, and makes the new account the app's user. The stored
     * session is the new account unless an earlier account has the same
     * email and password, in which case it is that earlier account.
     */
    method SignUp(store: Db.LocalStore, id: string, name: string, email: string, password: string)
      returns (u: User)
      modifies this, store
      ensures u == NewUser(id, name, email, password, store.encrypt)
      ensures store.users == old(store.users) + [u]
      ensures store.current == (if Db.FindByCredentials(old(store.users), email, u.passwordHash).Some?
                                then Db.FindByCredentials(old(store.users), email, u.passwordHash)
                                else Some(u))
      ensures store.rooms == old(store.rooms) && store.notifications == old(store.notifications)
      ensures old(store.Valid()) ==> store.Valid()
      ensures currentUser == Some(u)
      ensures searchQuery == old(searchQuery) && rooms == old(rooms) && filters == old(filters)
      ensures isSearching == old(isSearching) && selectedRoom == old(selectedRoom)
      ensures showKyc == old(showKyc) && showAddRoom == old(showAddRoom)
    {
      u := NewUser(id, name, email, password, store.encrypt);
      Db.LoginAfterSave(store.users, u, u.passwordHash);
      store.SaveUser(u);
      var _ := store.Login(email, password);
      currentUser := Some(u);
    }

    /**
     * The sign-in form: on a match the account becomes the app's user;
     * otherwise the form shows "Invalid credentials" and nothing else changes.
     */
    method SignIn(store: Db.LocalStore, email: string, password: string) returns (error: Option<string>)
      modifies this, store
      ensures var found := Db.FindByCredentials(old(store.users), email, store.encrypt(password));
              (found.Some? ==> error.None? && currentUser == found && store.current == found)
              && (found.None? ==> error == Some("Invalid credentials") && currentUser == old(currentUser)
                                  && store.current == old(store.current))
      ensures store.users == old(store.users) && store.rooms == old(store.rooms)
      ensures store.notifications == old(store.notifications)
      ensures old(store.Valid()) ==> store.Valid()
      ensures searchQuery == old(searchQuery) && rooms == old(rooms) && filters == old(filters)
      ensures isSearching == old(isSearching) && selectedRoom == old(selectedRoom)
      ensures showKyc == old(showKyc) && showAddRoom == old(showAddRoom)
    {
      var user := store.Login(email, password);
      if user.Some? {
        currentUser := user;
        error := None;
      } else {
        error := Some("Invalid credentials");
      }
    }

    /**
     * Submitting the KYC form: nothing happens unless both pictures are
     * there; otherwise the store verifies the account and, when it finds it,
     * the app's user becomes the verified account and the form closes. The
     * store's session takes the verified account when it is that user's.
     */
    method SubmitKyc(store: Db.LocalStore, idImage: string, selfieImage: string, now: int)
      returns (r: Option<User>)
      requires currentUser.Some?
      modifies this, store
      ensures (idImage == "" || selfieImage == "") ==>
                r.None? && store.users == old(store.users) && store.current == old(store.current)
                && currentUser == old(currentUser) && showKyc == old(showKyc)
      ensures idImage != "" && selfieImage != "" ==>
                (r.None? <==> Db.UserIndex(old(store.users), old(currentUser).value.id) == -1)
      ensures idImage != "" && selfieImage != "" ==>
                store.current == (if r.Some? && old(store.current).Some?
                                     && old(store.current).value.id == old(currentUser).value.id
                                  then r else old(store.current))
      ensures r.Some? ==>
                r.value == Db.KycVerified(old(store.users)[Db.UserIndex(old(store.users), old(currentUser).value.id)],
                                          KycDocuments(idImage, selfieImage, now))
                && store.users == Db.Replaced(old(store.users), r.value)
                && currentUser == r && !showKyc
      ensures r.None? ==> store.users == old(store.users) && currentUser == old(currentUser) && showKyc == old(showKyc)
      ensures store.rooms == old(store.rooms) && store.notifications == old(store.notifications)
      ensures old(store.Valid()) ==> store.Valid()
      ensures searchQuery == old(searchQuery) && rooms == old(rooms) && filters == old(filters)
      ensures isSearching == old(isSearching) && selectedRoom == old(selectedRoom) && showAddRoom == old(showAddRoom)
    {
      if idImage == "" || selfieImage == "" {
        return None;
      }
      r := store.SubmitKyc(currentUser.value.id, idImage, selfieImage, now);
      if r.Some? {
        currentUser := r;
        showKyc := false;
      }
    }
  }
}
