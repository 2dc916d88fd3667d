/**
 * The browser-storage layer (`db`): user accounts, the signed-in session,
 * the room catalog and notifications, each kept under its own storage key.
 * A key that has never been written reads as its default: no users, no
 * session, the seed catalog, no notifications. Stored values are copies
 * (they go through JSON), so the fields below hold values, not shared objects.
 */
module Db {
  import opened Types
  import opened Seqs
  import Constants

  /** The position of the first account with id `id`, or -1 (`users.findIndex(u => u.id === id)`). */
  function UserIndex(users: seq<User>, id: string): (k: int)
    ensures -1 <= k < |users|
    ensures k == -1 <==> forall i :: 0 <= i < |users| ==> users[i].id != id
    ensures k >= 0 ==> users[k].id == id && forall i :: 0 <= i < k ==> users[i].id != id
  {
    FirstIndex(users, (u: User) => u.id == id)
  }

  /** An account signs in with `email` and the password hash `hash` when both fields are equal to them. */
  predicate HasCredentials(u: User, email: string, hash: string) {
    u.email == email && u.passwordHash == hash
  }

  /** The first account with these credentials (`users.find(...)`), or none. */
  function FindByCredentials(users: seq<User>, email: string, hash: string): (r: Option<User>)
    ensures r.None? <==> forall i :: 0 <= i < |users| ==> !HasCredentials(users[i], email, hash)
    ensures r.Some? ==>
              exists k :: 0 <= k < |users| && users[k] == r.value && HasCredentials(r.value, email, hash)
                          && forall i :: 0 <= i < k ==> !HasCredentials(users[i], email, hash)
  {
    var k := FirstIndex(users, (u: User) => HasCredentials(u, email, hash));
    if k == -1 then None else Some(users[k])
  }

  /** The account list after `updateUser(updated)`: the first account with the same id is replaced. */
  function Replaced(users: seq<User>, updated: User): (r: seq<User>)
    ensures |r| == |users|
    ensures forall i :: 0 <= i < |users| ==> r[i].id == users[i].id
    ensures forall i :: 0 <= i < |users| && i != UserIndex(users, updated.id) ==> r[i] == users[i]
    ensures UserIndex(users, updated.id) >= 0 ==> r[UserIndex(users, updated.id)] == updated
    ensures UserIndex(users, updated.id) == -1 ==> r == users
  {
    var k := UserIndex(users, updated.id);
    if k == -1 then users else users[k := updated]
  }

  /**
   * The account after a KYC submission: verified, with the documents
   * attached; every other field is the account's own.
   */
  function KycVerified(u: User, docs: KycDocuments): (v: User)
    ensures v.kycStatus == Verified && v.kycDocuments == Some(docs)
    ensures v.id == u.id && v.username == u.username && v.email == u.email
    ensures v.passwordHash == u.passwordHash && v.role == u.role
    ensures v.bio == u.bio && v.avatar == u.avatar && v.phone == u.phone
  {
    u.(kycStatus := Verified, kycDocuments := Some(docs))
  }

  /** A listing as the store saves it: never marked as an example. */
  function AsUserListing(room: Room): (r: Room)
    ensures !r.isExample
    ensures r.(isExample := room.isExample) == room
    ensures room.isExample == false ==> r == room
  {
    room.(isExample := false)
  }

  /** The notifications addressed to `userId`, in stored order. */
  function NotificationsFor(all: seq<Notification>, userId: string): (r: seq<Notification>)
    ensures forall i :: 0 <= i < |r| ==> r[i].userId == userId && r[i] in all
    ensures forall i :: 0 <= i < |all| && all[i].userId == userId ==> all[i] in r
    ensures IsSubsequence(r, all)
    ensures forall n :: multiset(r)[n] == if n.userId == userId then multiset(all)[n] else 0
  {
    FilterIsSubsequence(all, (n: Notification) => n.userId == userId);
    forall n
      ensures multiset(Filter(all, (n: Notification) => n.userId == userId))[n]
              == if n.userId == userId then multiset(all)[n] else 0
    {
      FilterCount(all, (n: Notification) => n.userId == userId, n);
    }
    Filter(all, (n: Notification) => n.userId == userId)
  }

  class LocalStore {
    /** The stored accounts; an absent key is the empty list. */
    var users: seq<User>
    /** The stored session user; `None` when signed out. */
    var current: Option<User>
    /** The stored catalog; `None` while the key is absent. */
    var rooms: Option<seq<Room>>
    /** The stored notifications of every user. */
    var notifications: seq<Notification>
    /** The catalog read while nothing is stored. */
    const seed: seq<Room>
    /** The password scrambling (`btoa`), not modelled in detail. */
    const encrypt: string -> string

    /** The catalog `getRooms` reads: the stored one, or the seed catalog. */
    function Rooms(): seq<Room>
      reads this
    {
      rooms.GetOr(seed)
    }

    /**
     * What the store keeps true: the session user is one of the stored
     * accounts, and the only example listings are seed listings.
     */
    ghost predicate Valid()
      reads this
    {
      (current.Some? ==> current.value in users)
      && forall r :: r in Rooms() && r.isExample ==> r in seed
    }

    /** Fresh storage: every key absent. */
    constructor (encrypt: string -> string)
      ensures users == [] && current == None && rooms == None && notifications == []
      ensures seed == Constants.MockRooms && this.encrypt == encrypt
      ensures Rooms() == Constants.MockRooms
      ensures Valid()
    {
      users := [];
      current := None;
      rooms := None;
      notifications := [];
      seed := Constants.MockRooms;
      this.encrypt := encrypt;
    }

    /** `getUsers`. */
    method GetUsers() returns (us: seq<User>)
      ensures us == users
    {
      us := users;
    }

    /** `saveUser`: appends the account. */
    method SaveUser(user: User)
      modifies this
      ensures users == old(users) + [user]
      ensures current == old(current) && rooms == old(rooms) && notifications == old(notifications)
      ensures old(Valid()) ==> Valid()
    {
      users := users + [user];
    }

    /**
     * `updateUser`: replaces the first account with the same id and, when
     * the session user has that id, the session too. Nothing changes when
     * no account has the id.
     */
    method UpdateUser(updated: User)
      modifies this
      ensures users == Replaced(old(users), updated)
      ensures current == (if UserIndex(old(users), updated.id) >= 0 && old(current).Some?
                             && old(current).value.id == updated.id
                          then Some(updated) else old(current))
      ensures rooms == old(rooms) && notifications == old(notifications)
      ensures old(Valid()) ==> Valid()
    {
      var k := UserIndex(users, updated.id);
      if k != -1 {
        ghost var before := users;
        users := users[k := updated];
        if current.Some? && current.value.id == updated.id {
          current := Some(updated);
        } else if current.Some? && current.value in before {
          var j :| 0 <= j < |before| && before[j] == current.value;
          assert j != k;
          assert users[j] == current.value;
        }
      }
    }

    /**
     * `submitKYC`: marks the first account with `userId` verified, attaches
     * the documents uploaded at time `now`, refreshes the session when it is
     * that account, and returns the new account; returns `None` and changes
     * nothing when there is no such account.
     */
    method SubmitKyc(userId: string, idImage: string, selfieImage: string, now: int) returns (r: Option<User>)
      modifies this
      ensures r.None? <==> UserIndex(old(users), userId) == -1
      ensures r.None? ==> users == old(users) && current == old(current)
      ensures r.Some? ==>
                r.value == KycVerified(old(users)[UserIndex(old(users), userId)],
                                       KycDocuments(idImage, selfieImage, now))
                && users == Replaced(old(users), r.value)
                && current == (if old(current).Some? && old(current).value.id == userId
                               then r else old(current))
      ensures rooms == old(rooms) && notifications == old(notifications)
      ensures old(Valid()) ==> Valid()
    {
      var k := UserIndex(users, userId);
      if k == -1 {
        return None;
      }
      var updated := KycVerified(users[k], KycDocuments(idImage, selfieImage, now));
      assert UserIndex(users, updated.id) == k;
      UpdateUser(updated);
      r := Some(updated);
    }

    /**
     * `login`: signs in the first account whose email and password hash
     * match, and returns it; on no match returns `None` and leaves the
     * session as it was.
     */
    method Login(email: string, password: string) returns (r: Option<User>)
      modifies this
      ensures r == FindByCredentials(old(users), email, encrypt(password))
      ensures current == (if r.Some? then r else old(current))
      ensures users == old(users) && rooms == old(rooms) && notifications == old(notifications)
      ensures old(Valid()) ==> Valid()
    {
      r := FindByCredentials(users, email, encrypt(password));
      if r.Some? {
        current := r;
      }
    }

    /** `logout`: ends the session. */
    method Logout()
      modifies this
      ensures current == None
      ensures users == old(users) && rooms == old(rooms) && notifications == old(notifications)
      ensures old(Valid()) ==> Valid()
    {
      current := None;
    }

    /** `getCurrentUser`. */
    method GetCurrentUser() returns (u: Option<User>)
      ensures u == current
      ensures Valid() && u.Some? ==> u.value in users
    {
      u := current;
    }

    /** `getRooms`: the stored catalog, or the seed catalog while none is stored. */
    method GetRooms() returns (rs: seq<Room>)
      ensures rooms.Some? ==> rs == rooms.value
      ensures rooms.None? ==> rs == seed
      ensures Valid() ==> forall r :: r in rs && r.isExample ==> r in seed
    {
      rs := rooms.GetOr(seed);
    }

    /**
     * `addRoom`: stores the catalog with the listing, unmarked as an example,
     * in front. While nothing is stored the seed catalog is the base.
     */
    method AddRoom(room: Room)
      modifies this
      ensures rooms == Some([AsUserListing(room)] + old(Rooms()))
      ensures Rooms()[0] == AsUserListing(room) && Rooms()[1..] == old(Rooms())
      ensures users == old(users) && current == old(current) && notifications == old(notifications)
      ensures old(Valid()) ==> Valid()
    {
      var rs := GetRooms();
      rooms := Some([AsUserListing(room)] + rs);
    }

    /** `getNotifications`: the stored notifications addressed to `userId`. */
    method GetNotifications(userId: string) returns (ns: seq<Notification>)
      ensures ns == NotificationsFor(notifications, userId)
    {
      ns := NotificationsFor(notifications, userId);
    }
  }

  /**
   * Signing in right after saving an account with the same password finds an
   * account: the new one when no earlier account has the same email and
   * password hash, and the earliest such account otherwise.
   */
  lemma {:induction false} LoginAfterSave(users: seq<User>, u: User, hash: string)
    requires u.passwordHash == hash
    ensures FindByCredentials(users + [u], u.email, hash).Some?
    ensures FindByCredentials(users, u.email, hash).None? ==>
              FindByCredentials(users + [u], u.email, hash) == Some(u)
    ensures FindByCredentials(users, u.email, hash).Some? ==>
              FindByCredentials(users + [u], u.email, hash) == FindByCredentials(users, u.email, hash)
  {
    var all := users + [u];
    assert all[|users|] == u;
    var r := FindByCredentials(all, u.email, hash);
    var k :| 0 <= k < |all| && all[k] == r.value && HasCredentials(r.value, u.email, hash)
              && forall i :: 0 <= i < k ==> !HasCredentials(all[i], u.email, hash);
    if FindByCredentials(users, u.email, hash).None? {
      assert k == |users|;
    } else {
      var q := FindByCredentials(users, u.email, hash);
      var j :| 0 <= j < |users| && users[j] == q.value && HasCredentials(q.value, u.email, hash)
                && forall i :: 0 <= i < j ==> !HasCredentials(users[i], u.email, hash);
      assert all[j] == users[j];
      assert !(k < j) && !(j < k);
    }
  }

  /** Updating an account twice with the same record is updating it once. */
  lemma ReplacedIdempotent(users: seq<User>, updated: User)
    ensures Replaced(Replaced(users, updated), updated) == Replaced(users, updated)
  {
    var once := Replaced(users, updated);
    var k := UserIndex(users, updated.id);
    assert forall i :: 0 <= i < |users| ==> once[i].id == users[i].id;
    assert UserIndex(once, updated.id) == k;
  }
}
