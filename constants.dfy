/** The seed catalog shipped with the app. */
module Constants {
  import opened Types

  /** The four demo listings used when no catalog has been stored yet. */
  const MockRooms: seq<Room> := [Lazimpat, Koteshwor, Jhamsikhel, Kirtipur]

  const Lazimpat: Room :=
    Room("1", "owner1", "Cozy Room in Lazimpat",
      "A beautiful single room with attached bathroom near embassies. Perfect for diplomats or expats.",
      15000, "Lazimpat, Kathmandu", ["wifi", "attached_bathroom", "parking"],
      ["https://picsum.photos/600/400?random=1", "https://picsum.photos/600/400?random=2"],
      true, true, Some(PaymentInfo(Some("9841000000"), Some("9841000000"))))

  const Koteshwor: Room :=
    Room("2", "owner2", "Budget Flat in Koteshwor",
      "Two bedroom flat, sunny side, water available 24/7. Close to Bhatbhateni supermarket.",
      25000, "Koteshwor, Kathmandu", ["kitchen", "balcony", "water_24h"],
      ["https://picsum.photos/600/400?random=3"],
      true, true, Some(PaymentInfo(Some("9851000000"), None)))

  const Jhamsikhel: Room :=
    Room("3", "owner3", "Modern Apartment in Jhamsikhel",
      "Fully furnished apartment suitable for expats. Includes gym access and 24h security.",
      45000, "Jhamsikhel, Lalitpur", ["wifi", "kitchen", "parking", "ac", "furnished"],
      ["https://picsum.photos/600/400?random=4"],
      true, true, Some(PaymentInfo(None, Some("9803000000"))))

  const Kirtipur: Room :=
    Room("4", "owner4", "Student Room near TU",
      "Cheap room for students, shared kitchen. Walking distance to Tribhuvan University.",
      8000, "Kirtipur, Kathmandu", ["wifi", "kitchen"],
      ["https://picsum.photos/600/400?random=5"],
      true, true, None)

  /** The seed catalog has four rooms with the distinct ids "1" to "4", all marked as examples. */
  lemma MockRoomsShape()
    ensures |MockRooms| == 4
    ensures Ids(MockRooms) == ["1", "2", "3", "4"]
    ensures UniqueIds(MockRooms)
    ensures forall r :: r in MockRooms ==> r.isExample
  {
  }
}
