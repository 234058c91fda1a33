/**
  The scheduler lease (packages/db/src/leases.ts): one row, changed by three statements that the
  database stamps with its own clock.
 */
module Lease {
  import opened Stock

  datatype Row = Row(holder: nat, acquiredAt: int, expiresAt: int)

  /** Insert, or take over an expired lease, or extend one's own. */
  function AcquireRow(row: Option<Row>, holder: nat, now: int, duration: int): Option<Row> {
    match row
    case None => Some(Row(holder, now, now + duration))
    case Some(r) =>
      if r.expiresAt < now || r.holder == holder then
        Some(Row(holder, if r.holder == holder then r.acquiredAt else now, now + duration))
      else None
  }

  /** Extend a lease that is one's own and has not expired. */
  function RenewRow(row: Option<Row>, holder: nat, now: int, duration: int): Option<Row> {
    if row.Some? && row.value.holder == holder && row.value.expiresAt > now
    then Some(row.value.(expiresAt := now + duration))
    else None
  }

  function ReleaseRow(row: Option<Row>, holder: nat): Option<Row> {
    if row.Some? && row.value.holder == holder then None else row
  }

  class LeaseTable {
    var row: Option<Row>

    /** The table's constraint: a lease expires after it was acquired. */
    ghost predicate Valid(now: int)
      reads this
    {
      row.Some? ==> row.value.acquiredAt <= now && row.value.acquiredAt < row.value.expiresAt
    }

    constructor ()
      ensures row == None
    {
      row := None;
    }

    /** The caller learns the lease exactly when there was none, it had expired, or it was the
        caller's own; "leader since" survives unless the holder changes. */
    method Acquire(holder: nat, now: int, duration: int) returns (lease: Option<Row>)
      requires duration > 0 && Valid(now)
      modifies this
      ensures Valid(now)
      ensures lease == AcquireRow(old(row), holder, now, duration)
      ensures row == if lease.Some? then lease else old(row)
      ensures lease.Some? <==> old(row).None? || old(row).value.holder == holder || old(row).value.expiresAt < now
      ensures lease.Some? ==> lease.value.holder == holder && lease.value.expiresAt == now + duration
      ensures lease.Some? ==> forall other, t, d :: other != holder && t <= now + duration ==> AcquireRow(row, other, t, d) == None
      ensures lease.Some? && old(row).Some? && old(row).value.holder == holder ==> lease.value.acquiredAt == old(row).value.acquiredAt
    {
      if row.None? {
        row := Some(Row(holder, now, now + duration));
        return row;
      }
      if row.value.expiresAt < now || row.value.holder == holder {
        var since := if row.value.holder == holder then row.value.acquiredAt else now;
        row := Some(Row(holder, since, now + duration));
        return row;
      }
      return None;
    }

    /** True exactly when the lease was the caller's own and had not run out; only its end moves, and
        until the new end nobody else can take it. */
    method Renew(holder: nat, now: int, duration: int) returns (still: bool)
      requires duration > 0 && Valid(now)
      modifies this
      ensures Valid(now)
      ensures still <==> old(row).Some? && old(row).value.holder == holder && now < old(row).value.expiresAt
      ensures row == if still then Some(old(row).value.(expiresAt := now + duration)) else old(row)
      ensures still ==> forall other, t, d :: other != holder && t <= now + duration ==> AcquireRow(row, other, t, d) == None
      ensures still <==> RenewRow(old(row), holder, now, duration).Some?
    {
      still := row.Some? && row.value.holder == holder && row.value.expiresAt > now;
      if still {
        row := Some(row.value.(expiresAt := now + duration));
      }
    }

    /** The caller holds nothing afterwards. If it did before, anybody can take the lease at any time;
        if it did not, nobody's chances change. */
    method Release(holder: nat)
      modifies this
      ensures row.Some? ==> row.value.holder != holder
      ensures old(row).Some? && old(row).value.holder == holder ==> forall other, t, d :: AcquireRow(row, other, t, d).Some?
      ensures old(row).None? || old(row).value.holder != holder ==> row == old(row)
      ensures row == ReleaseRow(old(row), holder)
    {
      if row.Some? && row.value.holder == holder {
        row := None;
      }
    }
  }
}
