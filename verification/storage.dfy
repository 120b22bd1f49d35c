/** The browser's local key-value store, one slot per key the application writes. A slot is
    `None` until its key is first written. */
module Storage {
  import opened Outcomes
  import opened Records

  datatype Store = Store(
    reservations: Option<seq<Reservation>>,
    qualityReports: Option<seq<QualityReport>>,
    medicineNotifications: Option<seq<Notification>>)

  /** A store in which no key has been written. */
  const EmptyStore := Store(None, None, None)

  /** Reading a key as a list: what was stored, or the empty list when the key is absent. */
  function Items<T>(slot: Option<seq<T>>): seq<T> {
    match slot
    case Some(xs) => xs
    case None => []
  }

  /** Read the list under a key, push one record, write the list back. */
  function Push<T>(slot: Option<seq<T>>, x: T): (r: Option<seq<T>>)
    ensures r.Some?
    ensures Items(r) == Items(slot) + [x]
  {
    Some(Items(slot) + [x])
  }
}
