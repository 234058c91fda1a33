/**
  What a posting does to the balances and the append-only ledger
  (packages/inventory/src/ledger.ts): the decision, as a function of the balances it reads.
 */
module Ledger {
  import opened Stock

  datatype Kind = Receipt | Shipment | Adjustment | TransferIn | TransferOut | Reversal | Reconciliation

  /** A movement asked for, and equally a ledger entry written; an entry's id is its position. */
  datatype Movement = Movement(key: Key, kind: Kind, delta: int, reversalOf: Option<nat>)

  datatype Balance = Balance(onHand: int, reserved: int)

  type Balances = map<Key, Balance>

  datatype Shortfall = Shortfall(key: Key, onHand: int, requested: int, short: int)

  datatype Resulting = Resulting(key: Key, onHand: int, reserved: int)

  datatype Posting =
    | Posted(entryIds: seq<nat>, resulting: seq<Resulting>)
    | Insufficient(shortfalls: seq<Shortfall>)
    | Invalid(reason: string)

  const NO_MOVEMENT := "a posting needs at least one movement"
  const ZERO_DELTA := "a movement is a non-zero whole number of units"
  const UNLINKED := "only a reversal names the entry it reverses, and every reversal must"
  const BELOW_RESERVED := "that movement would leave fewer units on hand than are reserved"

  /** A key without a row holds nothing. */
  function At(b: Balances, k: Key): Balance {
    if k in b then b[k] else Balance(0, 0)
  }

  /** Units on hand that nobody has spoken for. */
  function Free(b: Balances, k: Key): int {
    At(b, k).onHand - At(b, k).reserved
  }

  /** The column constraints of the balance table. */
  ghost predicate Checked(b: Balances) {
    forall k :: k in b ==> 0 <= b[k].reserved <= b[k].onHand
  }

  /** Net change of one key: over the movements of a posting, or over the whole ledger. */
  function NetAt(ms: seq<Movement>, k: Key): int {
    if ms == [] then 0
    else
      var n := |ms| - 1;
      NetAt(ms[..n], k) + (if ms[n].key == k then ms[n].delta else 0)
  }

  function KeysOf(ms: seq<Movement>): seq<Key> {
    seq(|ms|, i requires 0 <= i < |ms| => ms[i].key)
  }

  function Touched(ms: seq<Movement>): set<Key> {
    set m | m in ms :: m.key
  }

  function FaultIn(m: Movement): Option<string> {
    if m.delta == 0 then Some(ZERO_DELTA)
    else if (m.kind == Reversal) != m.reversalOf.Some? then Some(UNLINKED)
    else None
  }

  /** What is wrong with the first malformed movement, if any is. */
  function Fault(ms: seq<Movement>): Option<string> {
    if ms == [] then None
    else
      var n := |ms| - 1;
      if Fault(ms[..n]).Some? then Fault(ms[..n]) else FaultIn(ms[n])
  }

  function After(b: Balances, ms: seq<Movement>, k: Key): int {
    At(b, k).onHand + NetAt(ms, k)
  }

  predicate LeavesBelowReserved(b: Balances, ms: seq<Movement>, k: Key) {
    0 <= After(b, ms, k) < At(b, k).reserved
  }

  function ShortfallsIn(b: Balances, ms: seq<Movement>, targets: seq<Key>): seq<Shortfall> {
    if targets == [] then []
    else
      var k := targets[|targets| - 1];
      ShortfallsIn(b, ms, targets[..|targets| - 1])
      + if After(b, ms, k) < 0 then [Shortfall(k, At(b, k).onHand, -NetAt(ms, k), -After(b, ms, k))] else []
  }

  function ResultingIn(b: Balances, ms: seq<Movement>, targets: seq<Key>): seq<Resulting> {
    if targets == [] then []
    else
      var k := targets[|targets| - 1];
      ResultingIn(b, ms, targets[..|targets| - 1])
      + if After(b, ms, k) < 0 then [] else [Resulting(k, After(b, ms, k), At(b, k).reserved)]
  }

  function Ids(first: nat, count: nat): seq<nat> {
    seq(count, i requires 0 <= i < count => first + i)
  }

  /** The outcome of posting `ms` when the ledger already holds `size` entries. Falling below what
      is reserved anywhere is reported in preference to running short elsewhere. */
  function PostingOf(b: Balances, size: nat, ms: seq<Movement>): Posting {
    if ms == [] then Invalid(NO_MOVEMENT)
    else if Fault(ms).Some? then Invalid(Fault(ms).value)
    else
      var targets := LockOrderOf(KeysOf(ms));
      if exists k :: k in targets && LeavesBelowReserved(b, ms, k) then Invalid(BELOW_RESERVED)
      else if ShortfallsIn(b, ms, targets) != [] then Insufficient(ShortfallsIn(b, ms, targets))
      else Posted(Ids(size, |ms|), ResultingIn(b, ms, targets))
  }

  /** Balances once `ms` has been applied; rows that did not exist are created. */
  function Moved(b: Balances, ms: seq<Movement>): (r: Balances) {
    map k | k in b.Keys + Touched(ms) :: Balance(After(b, ms, k), At(b, k).reserved)
  }

  // ---------------------------------------------------------------------------------------
  // Facts about postings
  // ---------------------------------------------------------------------------------------

  lemma {:induction false} NetAppend(a: seq<Movement>, b: seq<Movement>, k: Key)
    ensures NetAt(a + b, k) == NetAt(a, k) + NetAt(b, k)
  {
    if b == [] {
      assert a + b == a;
    } else {
      var n := |b| - 1;
      NetAppend(a, b[..n], k);
      assert (a + b)[..|a + b| - 1] == a + b[..n];
    }
  }

  lemma {:induction false} NetElsewhere(ms: seq<Movement>, k: Key)
    requires k !in Touched(ms)
    ensures NetAt(ms, k) == 0
  {
    if ms != [] {
      var n := |ms| - 1;
      assert ms[n] in ms;
      assert forall m :: m in ms[..n] ==> m in ms;
      NetElsewhere(ms[..n], k);
    }
  }

  lemma {:induction false} NoFaultMeans(ms: seq<Movement>)
    ensures Fault(ms).None? <==> forall m :: m in ms ==> FaultIn(m).None?
  {
    if ms != [] {
      var n := |ms| - 1;
      NoFaultMeans(ms[..n]);
      assert forall m :: m in ms <==> m in ms[..n] || m == ms[n];
    }
  }

  lemma {:induction false} NoShortfallMeans(b: Balances, ms: seq<Movement>, targets: seq<Key>)
    ensures ShortfallsIn(b, ms, targets) == [] <==> forall k :: k in targets ==> After(b, ms, k) >= 0
  {
    if targets != [] {
      var n := |targets| - 1;
      NoShortfallMeans(b, ms, targets[..n]);
      assert forall k :: k in targets <==> k in targets[..n] || k == targets[n];
    }
  }

  lemma TargetsAreTouched(ms: seq<Movement>)
    ensures forall k :: k in LockOrderOf(KeysOf(ms)) <==> k in Touched(ms)
  {
    var keys := KeysOf(ms);
    forall k ensures k in keys <==> k in Touched(ms) {
      if k in keys {
        var i :| 0 <= i < |keys| && keys[i] == k;
        assert ms[i] in ms;
      }
      if m :| m in ms && m.key == k {
        var i :| 0 <= i < |ms| && ms[i] == m;
        assert keys[i] == k;
      }
    }
  }

  /** No key would be left with fewer units than are reserved there. */
  ghost predicate HasRoom(b: Balances, ms: seq<Movement>) {
    forall k :: k in Touched(ms) ==> Free(b, k) + NetAt(ms, k) >= 0
  }

  ghost predicate WellFormed(ms: seq<Movement>) {
    ms != [] && forall m :: m in ms ==> FaultIn(m).None?
  }

  /** A posting goes through exactly when every movement is well formed and no key it touches
      would be left with fewer units than are reserved there. Which refusal is reported depends on
      more; whether there is one does not. */
  lemma PostedExactly(b: Balances, size: nat, ms: seq<Movement>)
    requires Checked(b)
    ensures PostingOf(b, size, ms).Posted? <==> WellFormed(ms) && HasRoom(b, ms)
  {
    var targets := LockOrderOf(KeysOf(ms));
    NoFaultMeans(ms);
    NoShortfallMeans(b, ms, targets);
    TargetsAreTouched(ms);
    forall k ensures At(b, k).reserved >= 0 {
    }
    assert forall k :: k in Touched(ms) ==>
      (Free(b, k) + NetAt(ms, k) >= 0 <==> After(b, ms, k) >= 0 && !LeavesBelowReserved(b, ms, k));
  }

  /** An accepted posting keeps the table's constraints, moves every key by its net change, and
      leaves what is reserved alone. */
  lemma PostedBalances(b: Balances, size: nat, ms: seq<Movement>)
    requires Checked(b) && PostingOf(b, size, ms).Posted?
    ensures Checked(Moved(b, ms))
    ensures forall k :: At(Moved(b, ms), k) == Balance(At(b, k).onHand + NetAt(ms, k), At(b, k).reserved)
  {
    PostedExactly(b, size, ms);
    forall k ensures k !in Touched(ms) ==> NetAt(ms, k) == 0 {
      if k !in Touched(ms) {
        NetElsewhere(ms, k);
      }
    }
  }

  /** A posting of a single well-formed movement. */
  lemma OneMovement(b: Balances, size: nat, m: Movement)
    requires Checked(b) && (m.kind == Reversal <==> m.reversalOf.Some?)
    ensures m.delta != 0 ==> (PostingOf(b, size, [m]).Posted? <==> Free(b, m.key) + m.delta >= 0)
    ensures PostingOf(b, size, [m]).Posted? ==>
              && Checked(Moved(b, [m]))
              && forall k :: At(Moved(b, [m]), k) ==
                   Balance(At(b, k).onHand + (if k == m.key then m.delta else 0), At(b, k).reserved)
    ensures At(b, m.key).reserved <= At(b, m.key).onHand
  {
    PostedExactly(b, size, [m]);
    assert [m][..0] == [];
    assert m in [m];
    forall k ensures NetAt([m], k) == if k == m.key then m.delta else 0 {
    }
    if PostingOf(b, size, [m]).Posted? {
      PostedBalances(b, size, [m]);
    }
  }
}
