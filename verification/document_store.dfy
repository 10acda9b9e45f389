/** The file behind each store, reduced to what the stores rely on: loading
    yields the records the file holds, or an empty collection when the file
    is absent or does not parse; saving replaces the file with the whole
    collection. */
module DocumentStore {

  import opened Outcomes

  /** The collection a store starts from; `stored` is what the file held,
      `None` when it was absent or unparseable. */
  function Load<T>(stored: Option<seq<T>>): (records: seq<T>)
    ensures stored.Some? ==> records == stored.value
    ensures stored.None? ==> records == []
  {
    match stored
    case Some(rs) => rs
    case None => []
  }
}
