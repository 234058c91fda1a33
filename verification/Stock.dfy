/**
  The vocabulary shared by the inventory modules: identifiers, the key of a balance row,
  and the order in which rows are locked.

  Identifiers are natural numbers standing for UUIDs; the source orders UUIDs with a string
  comparison, of which only totality matters.
 */
module Stock {
  datatype Option<+T> = None | Some(value: T)

  datatype Result<+T> = Ok(value: T) | Err(error: string)

  /** One canonical item at one location: the key of a balance row. */
  datatype Key = Key(item: nat, location: nat)

  function Min(a: nat, b: nat): nat { if a <= b then a else b }

  function Max(a: int, b: int): int { if a >= b then a else b }

  /** No element occurs twice. */
  ghost predicate Distinct<T>(s: seq<T>) {
    forall i, j :: 0 <= i < j < |s| ==> s[i] != s[j]
  }

  /** Item first, then location: the comparator rows are sorted by. */
  predicate Before(a: Key, b: Key) {
    a.item < b.item || (a.item == b.item && a.location < b.location)
  }

  predicate StrictlyAscending(s: seq<Key>) {
    forall i, j :: 0 <= i < j < |s| ==> Before(s[i], s[j])
  }

  /** Puts a key where it belongs in an ascending sequence, collapsing a duplicate. */
  function Insert(s: seq<Key>, k: Key): (r: seq<Key>)
    requires StrictlyAscending(s)
    ensures StrictlyAscending(r)
    ensures forall x :: x in r <==> x in s || x == k
  {
    if s == [] || Before(k, s[0]) then [k] + s
    else if s[0] == k then s
    else
      var rest := Insert(s[1..], k);
      assert forall x :: x in s <==> x == s[0] || x in s[1..];
      HeadStaysFirst(s, k, rest);
      [s[0]] + rest
  }

  lemma HeadStaysFirst(s: seq<Key>, k: Key, rest: seq<Key>)
    requires StrictlyAscending(s) && s != [] && Before(s[0], k)
    requires forall x :: x in rest <==> x in s[1..] || x == k
    ensures forall j :: 0 <= j < |rest| ==> Before(s[0], rest[j])
  {
    forall j | 0 <= j < |rest| ensures Before(s[0], rest[j]) {
      assert rest[j] in rest;
      if rest[j] != k {
        var i :| 0 <= i < |s[1..]| && s[1..][i] == rest[j];
        assert s[i + 1] == rest[j];
      }
    }
  }

  /** The rows a posting takes, in the order it takes them. */
  function LockOrderOf(targets: seq<Key>): (order: seq<Key>)
    ensures StrictlyAscending(order)
    ensures forall k :: k in order <==> k in targets
  {
    if targets == [] then []
    else
      var n := |targets| - 1;
      assert forall k :: k in targets <==> k in targets[..n] || k == targets[n];
      Insert(LockOrderOf(targets[..n]), targets[n])
  }

  /** Two ascending sequences of the same keys are the same sequence, so the lock order of a
      posting does not depend on how its movements happen to be listed. */
  lemma {:induction false} LockOrderIsCanonical(a: seq<Key>, b: seq<Key>)
    requires StrictlyAscending(a) && StrictlyAscending(b)
    requires forall k :: k in a <==> k in b
    ensures a == b
  {
    assert |a| > 0 ==> a[0] in b;
    assert |b| > 0 ==> b[0] in a;
    if a != [] {
      assert a[0] == b[0];
      forall k ensures k in a[1..] <==> k in b[1..] {
        TailLacksHead(a, k);
        TailLacksHead(b, k);
      }
      LockOrderIsCanonical(a[1..], b[1..]);
      assert a == [a[0]] + a[1..];
      assert b == [b[0]] + b[1..];
    }
  }

  lemma TailLacksHead(s: seq<Key>, k: Key)
    requires StrictlyAscending(s) && s != []
    ensures k in s[1..] <==> k in s && k != s[0]
  {
    if k in s[1..] {
      var i :| 0 <= i < |s[1..]| && s[1..][i] == k;
      assert Before(s[0], s[i + 1]);
    }
  }

  /** Collects the distinct keys and then sorts them by insertion. */
  method LockOrder(targets: seq<Key>) returns (order: seq<Key>)
    ensures order == LockOrderOf(targets)
  {
    var unique: seq<Key> := [];
    for i := 0 to |targets|
      invariant forall k :: k in unique <==> k in targets[..i]
    {
      if targets[i] !in unique {
        unique := unique + [targets[i]];
      }
    }
    assert targets[..|targets|] == targets;

    order := [];
    for i := 0 to |unique|
      invariant StrictlyAscending(order)
      invariant forall k :: k in order <==> k in unique[..i]
    {
      order := Insert(order, unique[i]);
    }
    assert unique[..|unique|] == unique;
    LockOrderIsCanonical(order, LockOrderOf(targets));
  }
}
