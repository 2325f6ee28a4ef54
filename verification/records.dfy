/** Rows that several components read and write, and what a caller that is
    taking an epoch has read of one. */
module Records {
  import opened Variables

  /** What a worker is to run. */
  datatype Assignment<!U(==)> = Assignment(units: set<U>, rev: nat)

  /** `next_epoch` between its get and its put: what was read. */
  datatype Pending<+U> = Pending(unit: U, current: nat, index: nat)

  function Current<U(==)>(store: Store<U, nat>, u: U): nat {
    if u in store.rows then store.rows[u].items else 0
  }

  /** What was read is old, or is what the row still holds. */
  ghost predicate PendingOk<U>(store: Store<U, nat>, p: Pending<U>) {
    && p.index <= store.raft
    && (p.index == 0 ==> p.current == 0)
    && (p.unit in store.rows && store.rows[p.unit].index == p.index ==> store.rows[p.unit].items == p.current)
  }
}
