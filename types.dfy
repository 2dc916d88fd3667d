/** Record shapes of the room-rental app: users, rooms and notifications. */
module Types {

  /** An optional value; `None` stands for a missing key, `null` or `undefined`. */
  datatype Option<+T> = None | Some(value: T) {
    /** The value, or `default` when there is none. */
    function GetOr(default: T): T {
      match this
      case Some(v) => v
      case None => default
    }
  }

  datatype UserRole = Seeker | Landlord

  datatype KycStatus = NotStarted | Pending | Verified | Rejected

  /** The identity documents a user uploads, with the upload time in milliseconds. */
  datatype KycDocuments = KycDocuments(idImage: string, selfieImage: string, submittedAt: int)

  datatype User = User(
    id: string,
    username: string,
    email: string,
    passwordHash: string,
    role: UserRole,
    kycStatus: KycStatus,
    bio: Option<string>,
    avatar: Option<string>,
    phone: Option<string>,
    kycDocuments: Option<KycDocuments>)

  /** The owner's wallet ids for the two mobile-money providers. */
  datatype PaymentInfo = PaymentInfo(esewaId: Option<string>, khaltiId: Option<string>)

  /**
   * A listing. The map coordinates are not part of this model; an absent
   * `isExample` flag is the same as `false`.
   */
  datatype Room = Room(
    id: string,
    ownerId: string,
    title: string,
    description: string,
    price: int,
    location: string,
    features: seq<string>,
    images: seq<string>,
    isAvailable: bool,
    isExample: bool,
    paymentInfo: Option<PaymentInfo>)

  datatype NotificationType = Booking | System | Message

  datatype Notification = Notification(
    id: string,
    userId: string,
    message: string,
    read: bool,
    kind: NotificationType,
    timestamp: int)

  /** The ids of `rooms`, position by position (`rooms.map(r => r.id)`). */
  function Ids(rooms: seq<Room>): (ids: seq<string>)
    ensures |ids| == |rooms|
    ensures forall i :: 0 <= i < |rooms| ==> ids[i] == rooms[i].id
  {
    seq(|rooms|, i requires 0 <= i < |rooms| => rooms[i].id)
  }

  /** The ids of a concatenation are the concatenated ids. */
  lemma IdsAppend(a: seq<Room>, b: seq<Room>)
    ensures Ids(a + b) == Ids(a) + Ids(b)
  {
  }

  /** No two positions of `rooms` carry the same id. */
  predicate UniqueIds(rooms: seq<Room>) {
    forall i, j :: 0 <= i < |rooms| && 0 <= j < |rooms| && rooms[i].id == rooms[j].id ==> i == j
  }

  /** The tail of a catalog with unique ids has unique ids, none of them the head's. */
  lemma UniqueIdsTail(rooms: seq<Room>)
    requires rooms != [] && UniqueIds(rooms)
    ensures UniqueIds(rooms[1..])
    ensures forall i :: 1 <= i < |rooms| ==> rooms[i].id != rooms[0].id
  {
    var t := rooms[1..];
    forall i, j | 0 <= i < |t| && 0 <= j < |t| && t[i].id == t[j].id
      ensures i == j
    {
      assert t[i] == rooms[i + 1] && t[j] == rooms[j + 1];
    }
  }

  /** A room whose id no room of a unique-id catalog has can go in front of it. */
  lemma UniqueIdsCons(r: Room, rooms: seq<Room>)
    requires UniqueIds(rooms)
    requires forall i :: 0 <= i < |rooms| ==> rooms[i].id != r.id
    ensures UniqueIds([r] + rooms)
  {
    var s := [r] + rooms;
    forall i, j | 0 <= i < |s| && 0 <= j < |s| && s[i].id == s[j].id
      ensures i == j
    {
      if i > 0 {
        assert s[i] == rooms[i - 1];
      }
      if j > 0 {
        assert s[j] == rooms[j - 1];
      }
    }
  }
}
