/**
  Many transactions taking balance rows at once (packages/inventory/src/ledger.ts).

  A posting first inserts the rows that do not exist, in lock order, and then locks all of its
  rows, in lock order. Everything else only locks, passing over keys that have no row. A row
  inserted by a transaction that has not committed is invisible to the others, and makes another
  insert of the same key wait. While it holds its rows a transaction may take some of them again.
 */
module RowLocks {
  import opened Stock

  datatype Stage = Inserting | Locking | Holding | Done

  datatype Tx = Tx(wants: seq<Key>, posts: bool, stage: Stage, next: nat, created: set<Key>, held: set<Key>, retakes: nat)

  /** `rows` are committed; `owner` says who holds a row, whether it is committed or not. */
  datatype World = World(rows: set<Key>, owner: map<Key, nat>, txs: seq<Tx>)

  datatype Action =
    | Advance              // the next insert or lock, or moving on to the next stage
    | Retake(key: Key)     // lock again a row already held
    | Finish(keep: bool)   // commit or roll back

  datatype Event = Event(tx: nat, action: Action)

  datatype Ask = Ask(targets: seq<Key>, posts: bool, retakes: nat)

  function Begin(ask: Ask): Tx {
    Tx(LockOrderOf(ask.targets), ask.posts, if ask.posts then Inserting else Locking, 0, {}, {}, ask.retakes)
  }

  function Start(rows: set<Key>, asks: seq<Ask>): World {
    World(rows, map[], seq(|asks|, i requires 0 <= i < |asks| => Begin(asks[i])))
  }

  predicate Visible(w: World, t: Tx, k: Key) {
    k in w.rows || k in t.created
  }

  /** The transaction is about to insert or lock this key and must wait for somebody else. */
  predicate Waits(w: World, i: nat)
    requires i < |w.txs|
  {
    var t := w.txs[i];
    && t.next < |t.wants|
    && t.wants[t.next] in w.owner && w.owner[t.wants[t.next]] != i
    && match t.stage
       case Inserting => t.wants[t.next] !in w.rows
       case Locking => Visible(w, t, t.wants[t.next])
       case _ => false
  }

  predicate Enabled(w: World, e: Event) {
    && e.tx < |w.txs|
    && var t := w.txs[e.tx];
       match e.action
       case Advance => (t.stage == Inserting || t.stage == Locking) && !Waits(w, e.tx)
       case Retake(k) => t.stage == Holding && t.retakes > 0 && k in t.held
       case Finish(_) => t.stage == Holding
  }

  function Advanced(w: World, i: nat): World
    requires i < |w.txs| && (w.txs[i].stage == Inserting || w.txs[i].stage == Locking)
  {
    var t := w.txs[i];
    if t.next >= |t.wants| then
      w.(txs := w.txs[i := if t.stage == Inserting then t.(stage := Locking, next := 0) else t.(stage := Holding)])
    else
      var k := t.wants[t.next];
      if t.stage == Inserting then
        if k in w.rows then w.(txs := w.txs[i := t.(next := t.next + 1)])
        else w.(owner := w.owner[k := i], txs := w.txs[i := t.(next := t.next + 1, created := t.created + {k}, held := t.held + {k})])
      else if !Visible(w, t, k) then w.(txs := w.txs[i := t.(next := t.next + 1)])
      else w.(owner := w.owner[k := i], txs := w.txs[i := t.(next := t.next + 1, held := t.held + {k})])
  }

  function Next(w: World, e: Event): World
    requires Enabled(w, e)
  {
    var t := w.txs[e.tx];
    match e.action
    case Advance => Advanced(w, e.tx)
    case Retake(_) => w.(txs := w.txs[e.tx := t.(retakes := t.retakes - 1)])
    case Finish(keep) =>
      World(if keep then w.rows + t.created else w.rows,
            map k | k in w.owner && w.owner[k] != e.tx :: w.owner[k],
            w.txs[e.tx := t.(stage := Done, created := {}, held := {})])
  }

  // ---------------------------------------------------------------------------------------
  // What every step keeps
  // ---------------------------------------------------------------------------------------

  function Passed(t: Tx): set<Key>
    requires t.next <= |t.wants|
  {
    set k | k in t.wants[..t.next]
  }

  ghost predicate GoodTx(w: World, i: nat)
    requires i < |w.txs|
  {
    var t := w.txs[i];
    && StrictlyAscending(t.wants)
    && t.next <= |t.wants|
    && t.created <= t.held
    && (forall k :: k in t.created ==> k in t.wants && k !in w.rows)
    && (forall k :: k in t.held <==> k in w.owner && w.owner[k] == i)
    && match t.stage
       case Inserting => t.posts && t.held == t.created && t.created <= Passed(t)
                         && (forall k :: k in Passed(t) ==> Visible(w, t, k))
       case Locking => t.held <= t.created + Passed(t)
                       && (t.posts ==> forall k :: k in t.wants ==> Visible(w, t, k))
       case Holding => true
       case Done => t.held == {}
  }

  ghost predicate Inv(w: World) {
    && (forall i :: 0 <= i < |w.txs| ==> GoodTx(w, i))
    && (forall k :: k in w.owner ==> w.owner[k] < |w.txs|)
    && (forall k :: k in w.owner ==> Visible(w, w.txs[w.owner[k]], k))
  }

  lemma StartInv(rows: set<Key>, asks: seq<Ask>)
    ensures Inv(Start(rows, asks))
  {
    var w := Start(rows, asks);
    forall i | 0 <= i < |w.txs| ensures GoodTx(w, i) {
      assert w.txs[i] == Begin(asks[i]);
    }
  }

  lemma BeforeGrows(t: Tx)
    requires t.next < |t.wants|
    ensures Passed(t.(next := t.next + 1)) == Passed(t) + {t.wants[t.next]}
  {
    assert t.wants[..t.next + 1] == t.wants[..t.next] + [t.wants[t.next]];
  }

  lemma NotYet(t: Tx)
    requires StrictlyAscending(t.wants) && t.next < |t.wants|
    ensures t.wants[t.next] !in Passed(t)
  {
    forall j | 0 <= j < t.next ensures t.wants[j] != t.wants[t.next] {
      assert Before(t.wants[j], t.wants[t.next]);
    }
  }

  /** A step that takes nothing new. */
  lemma MovesOn(w: World, i: nat, t: Tx)
    requires Inv(w) && i < |w.txs|
    requires t.wants == w.txs[i].wants && t.posts == w.txs[i].posts
    requires t.created == w.txs[i].created && t.held == w.txs[i].held
    requires GoodTx(w.(txs := w.txs[i := t]), i)
    ensures Inv(w.(txs := w.txs[i := t]))
  {
    var w' := w.(txs := w.txs[i := t]);
    forall j | 0 <= j < |w'.txs| ensures GoodTx(w', j) {
      if j != i {
        assert GoodTx(w, j);
      }
    }
  }

  /** A step that takes one row nobody else holds. */
  lemma TakesRow(w: World, i: nat, k: Key, t: Tx)
    requires Inv(w) && i < |w.txs| && (k in w.owner ==> w.owner[k] == i)
    requires t.held == w.txs[i].held + {k} && w.txs[i].created <= t.created <= w.txs[i].created + {k}
    requires k in w.rows || k in t.created
    requires GoodTx(World(w.rows, w.owner[k := i], w.txs[i := t]), i)
    ensures Inv(World(w.rows, w.owner[k := i], w.txs[i := t]))
  {
    var w' := World(w.rows, w.owner[k := i], w.txs[i := t]);
    forall j | 0 <= j < |w'.txs| ensures GoodTx(w', j) {
      if j != i {
        assert GoodTx(w, j);
      }
    }
  }

  lemma InsertKeeps(w: World, i: nat)
    requires Inv(w) && i < |w.txs| && w.txs[i].stage == Inserting && !Waits(w, i)
    ensures Inv(Advanced(w, i))
  {
    var t := w.txs[i];
    assert GoodTx(w, i);
    if t.next >= |t.wants| {
      assert t.wants[..t.next] == t.wants;
      assert forall k :: k in t.wants ==> k in Passed(t);
      MovesOn(w, i, t.(stage := Locking, next := 0));
    } else {
      var k := t.wants[t.next];
      BeforeGrows(t);
      NotYet(t);
      if k in w.rows {
        MovesOn(w, i, t.(next := t.next + 1));
      } else {
        assert k !in t.held;
        TakesRow(w, i, k, t.(next := t.next + 1, created := t.created + {k}, held := t.held + {k}));
      }
    }
  }

  lemma LockKeeps(w: World, i: nat)
    requires Inv(w) && i < |w.txs| && w.txs[i].stage == Locking && !Waits(w, i)
    ensures Inv(Advanced(w, i))
  {
    var t := w.txs[i];
    assert GoodTx(w, i);
    if t.next >= |t.wants| {
      MovesOn(w, i, t.(stage := Holding));
    } else {
      var k := t.wants[t.next];
      BeforeGrows(t);
      if !Visible(w, t, k) {
        MovesOn(w, i, t.(next := t.next + 1));
      } else {
        TakesRow(w, i, k, t.(next := t.next + 1, held := t.held + {k}));
      }
    }
  }

  lemma FinishKeeps(w: World, i: nat, keep: bool)
    requires Inv(w) && Enabled(w, Event(i, Finish(keep)))
    ensures Inv(Next(w, Event(i, Finish(keep))))
  {
    var w' := Next(w, Event(i, Finish(keep)));
    assert GoodTx(w, i);
    forall j | 0 <= j < |w'.txs| ensures GoodTx(w', j) {
      assert GoodTx(w, j);
      if j != i {
        forall k | k in w.txs[j].created ensures k !in w'.rows {
          assert k in w.txs[j].held;
          assert k !in w.txs[i].held;
        }
      }
    }
    forall k | k in w'.owner ensures Visible(w', w'.txs[w'.owner[k]], k) {
      assert Visible(w, w.txs[w.owner[k]], k);
    }
  }

  lemma NextKeeps(w: World, e: Event)
    requires Inv(w) && Enabled(w, e)
    ensures Inv(Next(w, e))
  {
    match e.action
    case Advance =>
      if w.txs[e.tx].stage == Inserting {
        InsertKeeps(w, e.tx);
      } else {
        LockKeeps(w, e.tx);
      }
    case Retake(_) =>
      assert GoodTx(w, e.tx);
      MovesOn(w, e.tx, w.txs[e.tx].(retakes := w.txs[e.tx].retakes - 1));
    case Finish(keep) => FinishKeeps(w, e.tx, keep);
  }

  // ---------------------------------------------------------------------------------------
  // No deadlock
  // ---------------------------------------------------------------------------------------

  predicate Unfinished(w: World, i: nat)
    requires i < |w.txs|
  {
    w.txs[i].stage != Done
  }

  function Wanted(w: World, i: nat): Key
    requires i < |w.txs| && w.txs[i].next < |w.txs[i].wants|
  {
    w.txs[i].wants[w.txs[i].next]
  }

  /** A waiting transaction waits for one that is at the same stage and, if that one waits too,
      waits for a later key. */
  lemma HolderIsFurtherOn(w: World, i: nat)
    requires Inv(w) && i < |w.txs| && Waits(w, i)
    ensures var h := w.owner[Wanted(w, i)];
            && h < |w.txs|
            && (w.txs[h].stage == w.txs[i].stage || w.txs[h].stage == Holding || w.txs[h].stage == Locking)
            && (Waits(w, h) && w.txs[h].stage == w.txs[i].stage ==> Before(Wanted(w, i), Wanted(w, h)))
  {
    var k := Wanted(w, i);
    var h := w.owner[k];
    var t := w.txs[h];
    assert GoodTx(w, i) && GoodTx(w, h);
    assert k in t.held;
    if w.txs[i].stage == Locking {
      assert k !in w.txs[i].created;
      assert k !in t.created;
    }
    if Waits(w, h) && t.stage == w.txs[i].stage {
      if t.stage == Locking {
        assert k in Passed(t);
      }
      var j :| 0 <= j < t.next && t.wants[j] == k;
      assert Before(t.wants[j], t.wants[t.next]);
    }
  }

  /** Of several waiting transactions, one whose key no other's comes after. */
  lemma {:induction false} FurthestOn(w: World, ids: set<nat>) returns (m: nat)
    requires ids != {} && forall i :: i in ids ==> i < |w.txs| && w.txs[i].next < |w.txs[i].wants|
    ensures m in ids && forall i :: i in ids ==> !Before(Wanted(w, m), Wanted(w, i))
    decreases |ids|
  {
    var i :| i in ids;
    if ids == {i} {
      m := i;
    } else {
      assert |ids - {i}| < |ids|;
      assert ids == {i} + (ids - {i});
      m := FurthestOn(w, ids - {i});
      if Before(Wanted(w, m), Wanted(w, i)) {
        m := i;
      }
    }
  }

  function WaitingAt(w: World, stage: Stage): set<nat> {
    set i: nat | i < |w.txs| && w.txs[i].stage == stage && Waits(w, i)
  }

  /** A transaction that waits at a stage where everybody waits leads to a contradiction. */
  lemma SomebodyMoves(w: World, stage: Stage)
    requires Inv(w) && WaitingAt(w, stage) != {}
    requires stage == Inserting ==> forall j :: 0 <= j < |w.txs| ==> w.txs[j].stage != Locking
    ensures exists i :: 0 <= i < |w.txs|
              && (w.txs[i].stage == Holding || ((w.txs[i].stage == Inserting || w.txs[i].stage == Locking) && !Waits(w, i)))
  {
    var m := FurthestOn(w, WaitingAt(w, stage));
    HolderIsFurtherOn(w, m);
    var h := w.owner[Wanted(w, m)];
    assert w.txs[h].stage == stage && Waits(w, h) ==> h in WaitingAt(w, stage);
    if w.txs[m].stage == Locking {
      HolderOfCommitted(w, m);
    }
  }

  /** Whoever holds a row that another is trying to lock has itself got to locking. */
  lemma HolderOfCommitted(w: World, i: nat)
    requires Inv(w) && i < |w.txs| && Waits(w, i) && w.txs[i].stage == Locking
    ensures w.txs[w.owner[Wanted(w, i)]].stage == Locking || w.txs[w.owner[Wanted(w, i)]].stage == Holding
  {
    var h := w.owner[Wanted(w, i)];
    assert GoodTx(w, i) && GoodTx(w, h);
  }

  /**
    No deadlock. In every reachable state, however many transactions there are and whatever rows
    they want, if one is unfinished then some transaction can take its next step.
   */
  lemma NoDeadlock(w: World, i: nat)
    requires Inv(w) && i < |w.txs| && Unfinished(w, i)
    ensures exists e :: Enabled(w, e)
  {
    var mover: nat;
    if w.txs[i].stage == Holding || !Waits(w, i) {
      mover := i;
    } else {
      if WaitingAt(w, Locking) != {} {
        SomebodyMoves(w, Locking);
      } else if j :| 0 <= j < |w.txs| && w.txs[j].stage == Locking {
        assert j !in WaitingAt(w, Locking);
      } else {
        assert i in WaitingAt(w, Inserting);
        SomebodyMoves(w, Inserting);
      }
      mover :| mover < |w.txs|
        && (w.txs[mover].stage == Holding || ((w.txs[mover].stage == Inserting || w.txs[mover].stage == Locking) && !Waits(w, mover)));
    }
    var e := Event(mover, if w.txs[mover].stage == Holding then Finish(true) else Advance);
    assert Enabled(w, e);
  }

  // ---------------------------------------------------------------------------------------
  // Every transaction finishes
  // ---------------------------------------------------------------------------------------

  /** Steps a transaction still has to take. */
  function Remaining(t: Tx): nat {
    match t.stage
    case Inserting => 2 * |t.wants| - Min(t.next, |t.wants|) + t.retakes + 3
    case Locking => |t.wants| - Min(t.next, |t.wants|) + t.retakes + 2
    case Holding => t.retakes + 1
    case Done => 0
  }

  function TotalRemaining(txs: seq<Tx>): nat {
    if txs == [] then 0 else TotalRemaining(txs[..|txs| - 1]) + Remaining(txs[|txs| - 1])
  }

  lemma {:induction false} TotalUpdate(txs: seq<Tx>, i: nat, t: Tx)
    requires i < |txs|
    ensures TotalRemaining(txs[i := t]) == TotalRemaining(txs) - Remaining(txs[i]) + Remaining(t)
  {
    var n := |txs| - 1;
    if i == n {
      assert txs[i := t][..n] == txs[..n];
    } else {
      TotalUpdate(txs[..n], i, t);
      assert txs[i := t][..n] == txs[..n][i := t];
    }
  }

  /** Every step brings the end nearer; a transaction that finishes without retaking everything it
      might have only gets there sooner. */
  lemma NextIsProgress(w: World, e: Event)
    requires Inv(w) && Enabled(w, e)
    ensures TotalRemaining(Next(w, e).txs) < TotalRemaining(w.txs)
  {
    StepIsProgress(w, e);
    TotalUpdate(w.txs, e.tx, Next(w, e).txs[e.tx]);
  }

  lemma StepIsProgress(w: World, e: Event)
    requires Inv(w) && Enabled(w, e)
    ensures |Next(w, e).txs| == |w.txs| && Next(w, e).txs == w.txs[e.tx := Next(w, e).txs[e.tx]]
    ensures Remaining(Next(w, e).txs[e.tx]) < Remaining(w.txs[e.tx])
  {
    assert GoodTx(w, e.tx);
  }

  ghost predicate IsRun(w: World, events: seq<Event>)
    decreases events
  {
    events == [] || (Enabled(w, events[0]) && IsRun(Next(w, events[0]), events[1..]))
  }

  ghost function After(w: World, events: seq<Event>): World
    requires IsRun(w, events)
    decreases events
  {
    if events == [] then w else After(Next(w, events[0]), events[1..])
  }

  /**
    Start any number of transactions on any rows and interleave them in any way. The run cannot
    be longer than the steps they have to take between them, and when nothing more can happen
    every one of them has finished.
   */
  lemma {:induction false} EveryRunFinishes(w: World, events: seq<Event>)
    requires Inv(w) && IsRun(w, events)
    ensures Inv(After(w, events))
    ensures |events| + TotalRemaining(After(w, events).txs) <= TotalRemaining(w.txs)
    ensures (forall e :: !Enabled(After(w, events), e)) ==>
              forall i :: 0 <= i < |After(w, events).txs| ==> After(w, events).txs[i].stage == Done
    decreases events
  {
    if events == [] {
      if i :| 0 <= i < |w.txs| && w.txs[i].stage != Done {
        NoDeadlock(w, i);
      }
    } else {
      NextKeeps(w, events[0]);
      NextIsProgress(w, events[0]);
      EveryRunFinishes(Next(w, events[0]), events[1..]);
    }
  }

  /** In particular from the start: whatever rows are there and whatever the transactions ask for. */
  lemma EveryStartFinishes(rows: set<Key>, asks: seq<Ask>, events: seq<Event>)
    requires IsRun(Start(rows, asks), events)
    ensures var w := After(Start(rows, asks), events);
            && |events| <= TotalRemaining(Start(rows, asks).txs)
            && ((forall e :: !Enabled(w, e)) ==> forall i :: 0 <= i < |w.txs| ==> w.txs[i].stage == Done)
            && forall i: nat :: i < |w.txs| && Unfinished(w, i) ==> exists e :: Enabled(w, e)
  {
    StartInv(rows, asks);
    EveryRunFinishes(Start(rows, asks), events);
    var w := After(Start(rows, asks), events);
    forall i: nat | i < |w.txs| && Unfinished(w, i) ensures exists e :: Enabled(w, e) {
      NoDeadlock(w, i);
    }
  }

  // ---------------------------------------------------------------------------------------
  // One row more, after the others
  // ---------------------------------------------------------------------------------------

  /** A transaction that holds its rows reaches for another, which was committed after it had passed
      over its key; `order` lists what it holds. */
  function Reaching(t: Tx, order: seq<Key>, k: Key): Tx {
    t.(wants := order + [k], next := |order|, stage := Locking)
  }

  /** Reaching for a row that comes after everything it holds is safe: the state is again one from
      which no deadlock can be reached. */
  lemma ReachingOnKeeps(w: World, i: nat, order: seq<Key>, k: Key)
    requires Inv(w) && i < |w.txs| && w.txs[i].stage == Holding && k in w.rows
    requires StrictlyAscending(order) && forall x :: x in order <==> x in w.txs[i].held
    requires forall x :: x in w.txs[i].held ==> Before(x, k)
    ensures Inv(w.(txs := w.txs[i := Reaching(w.txs[i], order, k)]))
  {
    var t := w.txs[i];
    var t' := Reaching(t, order, k);
    var w' := w.(txs := w.txs[i := t']);
    assert GoodTx(w, i);
    assert t'.wants[..t'.next] == order;
    forall x | x in t'.wants ensures Visible(w', t', x) {
      if x != k {
        assert x in w.owner && w.owner[x] == i;
      }
    }
    forall j | 0 <= j < |w'.txs| ensures GoodTx(w', j) {
      assert GoodTx(w, j);
      if j == i {
        forall a, b | 0 <= a < b < |t'.wants| ensures Before(t'.wants[a], t'.wants[b]) {
          assert t'.wants[a] in order;
        }
      }
    }
  }

  /** Two transactions that take the same two rows in different orders. */
  function Crossed(a: Key, b: Key): World {
    World({a, b}, map[], [Tx([a, b], false, Locking, 0, {}, {}, 0), Tx([b, a], false, Locking, 0, {}, {}, 0)])
  }

  /** Reaching back is not: whichever two rows they are, if one transaction takes the second of them
      first, two steps are enough for both to wait for ever. */
  lemma OutOfOrderDeadlocks(a: Key, b: Key)
    requires a != b
    ensures IsRun(Crossed(a, b), [Event(0, Advance), Event(1, Advance)])
    ensures forall e :: !Enabled(After(Crossed(a, b), [Event(0, Advance), Event(1, Advance)]), e)
  {
    var first, second := Event(0, Advance), Event(1, Advance);
    var w1 := Next(Crossed(a, b), first);
    assert w1.txs[1] == Crossed(a, b).txs[1] && w1.owner == map[a := 0];
    var w2 := Next(w1, second);
    assert [first, second][1..] == [second] && [second][1..] == [];
    assert IsRun(w1, [second]);
    assert After(w1, [second]) == w2;
    assert w2.owner == map[a := 0, b := 1];
    assert w2.txs[0] == Tx([a, b], false, Locking, 1, {}, {a}, 0);
    assert w2.txs[1] == Tx([b, a], false, Locking, 1, {}, {b}, 0);
  }
}
