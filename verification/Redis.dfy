/** One Redis key seen as a cell: a value with an optional expiry instant. Time is in milliseconds
    and comes from the server's clock. */
module Redis {
  import opened Wrappers

  datatype Entry<+V> = Entry(value: V, expires: Option<int>)

  type Cell<+V> = Option<Entry<V>>

  /** What a read at instant `now` returns: an entry whose expiry has been reached is gone. */
  function Live<V>(cell: Cell<V>, now: int): Option<V> {
    if cell.Some? && (cell.value.expires.None? || now < cell.value.expires.value)
    then Some(cell.value.value)
    else None
  }
}
