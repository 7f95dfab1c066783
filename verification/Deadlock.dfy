/** Requests that wait for each other: what a deadlock is, and that there is none if all
    batches name their nodes in one order. */
module Deadlock {
  import opened Schema
  import opened IngestSystem
  import opened IngestInvariant
  import opened ExactlyOnce

  // ---- one order, no deadlock ----

  type Rank = NodeKey -> int

  predicate Ascending(items: seq<NodeIn>, rank: Rank) {
    forall i, j :: 0 <= i < j < |items| ==> rank(items[i].key) < rank(items[j].key)
  }

  /** Every admitted batch names its nodes in the order of `rank`. */
  ghost predicate Ordered(d: Deployment, rank: Rank) {
    forall r :: r in d.pushes && d.Admits(d.pushes[r]) ==> Ascending(Seen(d.pushes[r].body.results), rank)
  }

  /** The nodes that a transaction has inserted rank below those it has to do. */
  ghost predicate RankedTx(s: Sys, t: nat, rank: Rank)
    requires t in s.txs
  {
    s.txs[t].stage.Upserting? ==>
      var todo := s.txs[t].stage.todo;
      && Ascending(todo, rank)
      && (|todo| > 0 ==> forall i :: i in s.nodes && s.nodes[i].xmin == t ==> rank(s.nodes[i].key) < rank(todo[0].key))
  }

  ghost predicate Ranked(s: Sys, rank: Rank) {
    forall t :: t in s.txs ==> RankedTx(s, t, rank)
  }

  lemma {:induction false} OthersRanked(d: Deployment, s: Sys, step: Step, u: nat, rank: Rank)
    requires TablesOk(s) && TxsOk(d, s) && Enabled(d, s, step) && Ranked(s, rank)
    requires (IsOutside(step) || Actor(step) != u) && u in Apply(d, s, step).txs
    ensures RankedTx(Apply(d, s, step), u, rank)
  {
    StepTouches(d, s, step);
    assert u in s.txs && RankedTx(s, u, rank);
  }

  lemma {:induction false} UpsertRanked(d: Deployment, s: Sys, t: nat, rank: Rank)
    requires TablesOk(s) && Enabled(d, s, UpsertNode(t)) && RankedTx(s, t, rank)
    ensures RankedTx(Apply(d, s, UpsertNode(t)), t, rank)
  {
    var todo := s.txs[t].stage.todo;
    assert Ascending(todo[1..], rank);
    if |todo| > 1 {
      assert rank(todo[0].key) < rank(todo[1].key);
    }
  }

  lemma {:induction false} InsertRanked(d: Deployment, s: Sys, t: nat, rank: Rank)
    requires Ordered(d, rank) && Enabled(d, s, InsertRun(t)) && TxOk(d, s, t)
    ensures RankedTx(Apply(d, s, InsertRun(t)), t, rank)
  {
    assert Ascending(Seen(s.txs[t].body.results), rank);
  }

  lemma {:induction false} OwnRanked(d: Deployment, s: Sys, step: Step, t: nat, rank: Rank)
    requires Ordered(d, rank) && TablesOk(s) && Enabled(d, s, step) && !IsOutside(step) && Actor(step) == t
    requires t in s.txs ==> TxOk(d, s, t) && RankedTx(s, t, rank)
    ensures t in Apply(d, s, step).txs ==> RankedTx(Apply(d, s, step), t, rank)
  {
    if step.UpsertNode? {
      UpsertRanked(d, s, t, rank);
    } else if step.InsertRun? {
      InsertRanked(d, s, t, rank);
    } else if step.AddResults? {
      AddResultsTx(d, s, t);
    }
  }

  lemma {:induction false} StepRanked(d: Deployment, s: Sys, step: Step, rank: Rank)
    requires Ordered(d, rank) && TablesOk(s) && TxsOk(d, s) && Ranked(s, rank) && Enabled(d, s, step)
    ensures Ranked(Apply(d, s, step), rank)
  {
    var s' := Apply(d, s, step);
    forall u | u in s'.txs ensures RankedTx(s', u, rank) {
      if !IsOutside(step) && Actor(step) == u {
        OwnRanked(d, s, step, u, rank);
      } else {
        OthersRanked(d, s, step, u, rank);
      }
    }
  }

  lemma {:induction false} RunRanked(d: Deployment, steps: seq<Step>, rank: Rank)
    requires d.Valid() && Ordered(d, rank) && Exec(d, steps).Some?
    ensures Ranked(Exec(d, steps).value, rank)
  {
    if |steps| > 0 {
      var n := |steps| - 1;
      RunRanked(d, steps[..n], rank);
      Serialisable(d, steps[..n]);
      StepRanked(d, Exec(d, steps[..n]).value, steps[n], rank);
    }
  }

  /** The steps that carry a request towards its answer without giving it up. */
  predicate Serves(step: Step) {
    step.CheckRun? || step.CountStored? || step.InsertRun? || step.UpsertNode? || step.ReadNodes?
    || step.AddResults? || step.Commit?
  }

  predicate Writing(s: Sys, t: nat) {
    t in s.txs && t !in s.committed
    && (s.txs[t].stage.Upserting? || s.txs[t].stage.Adding? || s.txs[t].stage.Committing?)
  }

  /** A row that is not committed belongs to a transaction that is still writing. */
  lemma {:induction false} HolderWrites(d: Deployment, s: Sys, t: nat)
    requires TxsOk(d, s) && t in s.txs && t !in s.committed
    requires (exists i :: i in s.nodes && s.nodes[i].xmin == t) || (exists i :: i in s.runs && s.runs[i].xmin == t)
    ensures Writing(s, t)
  {
    assert TxOk(d, s, t);
  }

  predicate Wants(s: Sys, t: nat) {
    t in s.txs && s.txs[t].stage.Upserting? && |s.txs[t].stage.todo| > 0
  }

  /** The transactions that still have a node to do that ranks above `x`. */
  function Above(s: Sys, rank: Rank, x: int): set<nat> {
    set t | t in s.txs && Wants(s, t) && rank(s.txs[t].stage.todo[0].key) > x
  }

  function Level(s: Sys, rank: Rank, t: nat): nat {
    if Wants(s, t) then |Above(s, rank, rank(s.txs[t].stage.todo[0].key))| + 1 else 0
  }

  /** Whoever holds the node that `t` waits for wants one of a higher rank, if any. */
  lemma {:induction false} HolderIsAbove(d: Deployment, s: Sys, rank: Rank, t: nat) returns (u: nat)
    requires TablesOk(s) && TxsOk(d, s) && Ranked(s, rank) && Wants(s, t) && !Enabled(d, s, UpsertNode(t))
    ensures Writing(s, u) && Level(s, rank, u) < Level(s, rank, t)
  {
    var k := s.txs[t].stage.todo[0].key;
    var i :| i in s.nodes && s.nodes[i].key == k && !s.SeesNode(t, i);
    u := s.nodes[i].xmin;
    HolderWrites(d, s, u);
    if Wants(s, u) {
      assert RankedTx(s, u, rank);
      LevelFalls(s, rank, t, u);
    }
  }

  lemma {:induction false} LevelFalls(s: Sys, rank: Rank, t: nat, u: nat)
    requires Wants(s, t) && Wants(s, u) && rank(s.txs[t].stage.todo[0].key) < rank(s.txs[u].stage.todo[0].key)
    ensures Level(s, rank, u) < Level(s, rank, t)
  {
    var a, b := Above(s, rank, rank(s.txs[u].stage.todo[0].key)), Above(s, rank, rank(s.txs[t].stage.todo[0].key));
    assert u in b && u !in a && a <= b;
    SmallerSet(a, b);
  }

  lemma {:induction false} SmallerSet(a: set<nat>, b: set<nat>)
    requires a < b
    ensures |a| < |b|
  {
    assert b == a + (b - a) && |b| == |a| + |b - a|;
    assert b - a != {};
  }

  /** From a writing transaction the chain of holders leads to one that can go on. */
  lemma {:induction false} SomeHolderMoves(d: Deployment, s: Sys, rank: Rank, t: nat) returns (step: Step)
    requires TablesOk(s) && TxsOk(d, s) && Ranked(s, rank) && Writing(s, t)
    ensures Enabled(d, s, step) && Serves(step)
    decreases Level(s, rank, t)
  {
    match s.txs[t].stage
    case Upserting(_, todo) =>
      if |todo| == 0 {
        step := ReadNodes(t);
      } else if Enabled(d, s, UpsertNode(t)) {
        step := UpsertNode(t);
      } else {
        var u := HolderIsAbove(d, s, rank, t);
        step := SomeHolderMoves(d, s, rank, u);
      }
    case Adding(_, _) => step := AddResults(t);
    case Committing(_, _) => step := Commit(t);
  }

  /** When all admitted batches name their nodes in one order, the server never deadlocks:
      in every reachable state with a request that is not decided, some request can take
      its next step, and none has to be aborted for it. */
  lemma {:induction false} OneOrderNeverDeadlocks(d: Deployment, rank: Rank, steps: seq<Step>, t: nat)
    returns (step: Step)
    requires d.Valid() && Ordered(d, rank) && Exec(d, steps).Some?
    requires t in Exec(d, steps).value.txs && !Exec(d, steps).value.txs[t].stage.Decided?
    ensures Enabled(d, Exec(d, steps).value, step) && Serves(step)
  {
    Serialisable(d, steps);
    RunRanked(d, steps, rank);
    step := SomeoneMoves(d, Exec(d, steps).value, rank, t);
  }

  lemma {:induction false} SomeoneMoves(d: Deployment, s: Sys, rank: Rank, t: nat) returns (step: Step)
    requires TablesOk(s) && TxsOk(d, s) && Ranked(s, rank) && t in s.txs && !s.txs[t].stage.Decided?
    ensures Enabled(d, s, step) && Serves(step)
  {
    RunningIsUncommitted(d, s, t);
    match s.txs[t].stage
    case Checking => step := CheckRun(t);
    case Counting(_) => step := CountStored(t);
    case Inserting =>
      if Enabled(d, s, InsertRun(t)) {
        step := InsertRun(t);
      } else {
        var pk :| pk in s.runs && s.runs[pk].externalId == s.txs[t].body.runId && !s.CommittedRun(pk);
        HolderWrites(d, s, s.runs[pk].xmin);
        step := SomeHolderMoves(d, s, rank, s.runs[pk].xmin);
      }
    case _ => step := SomeHolderMoves(d, s, rank, t);
  }

  // ---- what a deadlock is ----

  /** `t` has inserted the node `k`. */
  predicate Holds(s: Sys, t: nat, k: NodeKey) {
    exists i :: i in s.nodes && s.nodes[i].key == k && s.nodes[i].xmin == t
  }

  /** `t` has inserted the run `r`. */
  predicate HoldsRun(s: Sys, t: nat, r: RunId) {
    exists pk :: pk in s.runs && s.runs[pk].externalId == r && s.runs[pk].xmin == t
  }

  /** `t` waits for a row that `u` has written and not committed. */
  predicate WaitsFor(s: Sys, t: nat, u: nat) {
    && t in s.txs && u !in s.committed
    && ((s.txs[t].stage.Inserting? && HoldsRun(s, u, s.txs[t].body.runId))
        || (Wants(s, t) && t != u && Holds(s, u, s.txs[t].stage.todo[0].key)))
  }

  ghost predicate Blocked(s: Sys, t: nat, ts: set<nat>) {
    exists u :: u in ts && WaitsFor(s, t, u)
  }

  /** Some transactions wait for each other and for nobody else. */
  ghost predicate DeadlockOf(s: Sys, ts: set<nat>) {
    ts != {} && forall t :: t in ts ==> Blocked(s, t, ts)
  }

  /** Only aborting one of them goes on. */
  lemma {:induction false} OnlyAborts(d: Deployment, s: Sys, ts: set<nat>, step: Step)
    requires DeadlockOf(s, ts) && Enabled(d, s, step) && !IsOutside(step) && Actor(step) in ts
    ensures step == Abort(Actor(step))
  {
    var t := Actor(step);
    assert Blocked(s, t, ts);
    var u :| u in ts && WaitsFor(s, t, u);
    WaitingStands(d, s, t, u, step);
  }

  lemma {:induction false} WaitingStands(d: Deployment, s: Sys, t: nat, u: nat, step: Step)
    requires WaitsFor(s, t, u) && Enabled(d, s, step) && !IsOutside(step) && Actor(step) == t
    ensures step == Abort(t)
  {
    if Wants(s, t) {
      var i :| i in s.nodes && s.nodes[i].key == s.txs[t].stage.todo[0].key && s.nodes[i].xmin == u;
      assert !s.SeesNode(t, i);
    } else {
      var pk :| pk in s.runs && s.runs[pk].externalId == s.txs[t].body.runId && s.runs[pk].xmin == u;
      assert !s.CommittedRun(pk);
    }
  }

  /** Until then they stay deadlocked, whatever the others do. */
  lemma {:induction false} DeadlockLasts(d: Deployment, s: Sys, ts: set<nat>, step: Step)
    requires TablesOk(s) && TxsOk(d, s) && DeadlockOf(s, ts) && Enabled(d, s, step)
    requires IsOutside(step) || step != Abort(Actor(step)) || Actor(step) !in ts
    ensures DeadlockOf(Apply(d, s, step), ts)
  {
    if !IsOutside(step) && Actor(step) in ts {
      OnlyAborts(d, s, ts, step);
    }
    forall t | t in ts ensures Blocked(Apply(d, s, step), t, ts) {
      BlockLasts(d, s, step, t, ts);
    }
  }

  lemma {:induction false} BlockLasts(d: Deployment, s: Sys, step: Step, t: nat, ts: set<nat>)
    requires TablesOk(s) && TxsOk(d, s) && Enabled(d, s, step) && Blocked(s, t, ts) && t in ts
    requires IsOutside(step) || Actor(step) !in ts
    ensures Blocked(Apply(d, s, step), t, ts)
  {
    var u :| u in ts && WaitsFor(s, t, u);
    WaitLasts(d, s, step, t, u);
  }

  lemma {:induction false} WaitLasts(d: Deployment, s: Sys, step: Step, t: nat, u: nat)
    requires TablesOk(s) && TxsOk(d, s) && Enabled(d, s, step) && WaitsFor(s, t, u)
    requires IsOutside(step) || (Actor(step) != t && Actor(step) != u)
    ensures WaitsFor(Apply(d, s, step), t, u)
  {
    StepTouches(d, s, step);
    if IsOutside(step) {
      WaitUnmoved(d, s, step, t, u);
    } else {
      WaitKept(s, Apply(d, s, step), Actor(step), t, u);
    }
  }

  lemma {:induction false} WaitUnmoved(d: Deployment, s: Sys, step: Step, t: nat, u: nat)
    requires Enabled(d, s, step) && IsOutside(step) && WaitsFor(s, t, u)
    ensures WaitsFor(Apply(d, s, step), t, u)
  {
    var s' := Apply(d, s, step);
    assert s'.runs == s.runs && s'.nodes == s.nodes && s'.committed == s.committed && s'.txs == s.txs;
  }

  lemma {:induction false} WaitKept(s: Sys, s': Sys, a: nat, t: nat, u: nat)
    requires OnlyTouches(s, s', a) && a != t && a != u && WaitsFor(s, t, u)
    ensures WaitsFor(s', t, u)
  {
    HeldRowsKept(s, s', a, u);
  }

  lemma {:induction false} HeldRowsKept(s: Sys, s': Sys, a: nat, u: nat)
    requires OnlyTouches(s, s', a) && u != a
    ensures forall k :: Holds(s, u, k) ==> Holds(s', u, k)
    ensures forall r :: HoldsRun(s, u, r) ==> HoldsRun(s', u, r)
  {
    forall k | Holds(s, u, k) ensures Holds(s', u, k) {
      var i :| i in s.nodes && s.nodes[i].key == k && s.nodes[i].xmin == u;
      assert s'.nodes[i] == s.nodes[i];
    }
    forall r | HoldsRun(s, u, r) ensures HoldsRun(s', u, r) {
      var pk :| pk in s.runs && s.runs[pk].externalId == r && s.runs[pk].xmin == u;
      assert s'.runs[pk] == s.runs[pk];
    }
  }

  /** A state in which some request is undecided and none can take its next step is one. */
  lemma {:induction false} StuckIsDeadlock(d: Deployment, s: Sys, t: nat) returns (ts: set<nat>)
    requires TablesOk(s) && TxsOk(d, s) && t in s.txs && !s.txs[t].stage.Decided?
    requires forall step :: Enabled(d, s, step) ==> !Serves(step)
    ensures DeadlockOf(s, ts)
  {
    ts := set u | u in s.txs && !s.txs[u].stage.Decided?;
    assert t in ts;
    forall u | u in ts ensures Blocked(s, u, ts) {
      var holder := StuckWaits(d, s, u);
    }
  }

  lemma {:induction false} StuckWaits(d: Deployment, s: Sys, t: nat) returns (u: nat)
    requires TablesOk(s) && TxsOk(d, s) && t in s.txs && !s.txs[t].stage.Decided?
    requires forall step :: Enabled(d, s, step) ==> !Serves(step)
    ensures u in s.txs && !s.txs[u].stage.Decided? && WaitsFor(s, t, u)
  {
    StuckStage(d, s, t);
    if Wants(s, t) {
      u := NodeHolder(d, s, t);
    } else {
      u := RunHolder(d, s, t);
    }
  }

  /** The only two steps that can have to wait. */
  lemma {:induction false} StuckStage(d: Deployment, s: Sys, t: nat)
    requires t in s.txs && !s.txs[t].stage.Decided?
    requires forall step :: Enabled(d, s, step) ==> !Serves(step)
    ensures (Wants(s, t) && !Enabled(d, s, UpsertNode(t))) || (s.txs[t].stage.Inserting? && !Enabled(d, s,
      InsertRun(t)))
  {
    assert Serves(CheckRun(t)) && Serves(CountStored(t)) && Serves(InsertRun(t)) && Serves(UpsertNode(t));
    assert Serves(ReadNodes(t)) && Serves(AddResults(t)) && Serves(Commit(t));
  }

  lemma {:induction false} RunHolder(d: Deployment, s: Sys, t: nat) returns (u: nat)
    requires TablesOk(s) && TxsOk(d, s) && t in s.txs && s.txs[t].stage.Inserting? && !Enabled(d, s, InsertRun(t))
    ensures Writing(s, u) && WaitsFor(s, t, u)
  {
    var pk :| pk in s.runs && s.runs[pk].externalId == s.txs[t].body.runId && !s.CommittedRun(pk);
    u := s.runs[pk].xmin;
    HolderWrites(d, s, u);
  }

  lemma {:induction false} NodeHolder(d: Deployment, s: Sys, t: nat) returns (u: nat)
    requires TablesOk(s) && TxsOk(d, s) && Wants(s, t) && !Enabled(d, s, UpsertNode(t))
    ensures Writing(s, u) && WaitsFor(s, t, u)
  {
    var i :| i in s.nodes && s.nodes[i].key == s.txs[t].stage.todo[0].key && !s.SeesNode(t, i);
    u := s.nodes[i].xmin;
    HolderWrites(d, s, u);
    assert Holds(s, u, s.txs[t].stage.todo[0].key);
  }
}
