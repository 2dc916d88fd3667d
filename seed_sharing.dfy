/**
 * The catalog arrays as the browser holds them: objects that can be shared.
 * While no catalog is stored, `getRooms` hands out the seed array itself
 * rather than a copy, `addRoom` then grows that array in place, and the
 * app's list of shown rooms (read from `getRooms` when the app starts) is
 * that same array. This module follows that sharing; the rest of the model
 * treats every catalog as a value, which is the behaviour the app evidently
 * intends.
 */
module SeedSharing {
  import opened Types
  import Constants
  import Db
  import App

  /** A JavaScript array of rooms: one object, seen by everyone who holds it. */
  class RoomArray {
    var items: seq<Room>

    constructor (items: seq<Room>)
      ensures this.items == items
    {
      this.items := items;
    }
  }

  /** The storage layer's catalog half, with the seed catalog as one shared array. */
  class SharedCatalogStore {
    /** The module-level seed array. */
    const seed: RoomArray
    /** The stored catalog; `None` while the key is absent. */
    var stored: Option<seq<Room>>

    constructor (seed: RoomArray)
      ensures this.seed == seed && stored == None
    {
      this.seed := seed;
      stored := None;
    }

    /** `getRooms` as written: a freshly parsed array, or the seed array itself. */
    method GetRooms() returns (a: RoomArray)
      ensures stored.None? ==> a == seed
      ensures stored.Some? ==> fresh(a) && a.items == stored.value
    {
      if stored.Some? {
        a := new RoomArray(stored.value);
      } else {
        a := seed;
      }
    }

    /** `addRoom` as written: `unshift` on whatever array `getRooms` returned, then store it. */
    method AddRoom(room: Room)
      modifies this, seed
      ensures stored == Some([Db.AsUserListing(room)] + old(if stored.Some? then stored.value else seed.items))
      ensures old(stored).None? ==> seed.items == [Db.AsUserListing(room)] + old(seed.items)
      ensures old(stored).Some? ==> seed.items == old(seed.items)
    {
      var a := GetRooms();
      a.items := [Db.AsUserListing(room)] + a.items;
      stored := Some(a.items);
    }
  }

  /**
   * Fresh storage, the app starts (its shown rooms are what `getRooms`
   * returns), and a verified user lists `room` before any search: the shown list
   * holds the new listing twice, once from the form and once from the seed
   * array the store grew in place.
   */
  method NewListingShownTwice(room: Room) returns (shown: seq<Room>)
    requires !room.isExample
    ensures shown == [room, room] + Constants.MockRooms
    ensures shown[0] == shown[1] && |shown| == |Constants.MockRooms| + 2
  {
    var seed := new RoomArray(Constants.MockRooms);
    var store := new SharedCatalogStore(seed);
    var appRooms := store.GetRooms();
    store.AddRoom(room);
    shown := [room] + appRooms.items;
  }

  /**
   * The same steps with catalogs as values: the new listing is shown once,
   * in front of the seed rooms, and the shown list is the stored catalog.
   */
  method NewListingShownOnce(room: Room, encrypt: string -> string) returns (shown: seq<Room>, stored: seq<Room>)
    requires !room.isExample
    ensures shown == [room] + Constants.MockRooms
    ensures stored == shown
  {
    var store := new Db.LocalStore(encrypt);
    var app := new App.AppState();
    app.Mount(store);
    store.AddRoom(room);
    app.AddRoom(room);
    shown := app.rooms;
    stored := store.GetRooms();
  }
}
