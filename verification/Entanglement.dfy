/** Exactly when a deadlock can be reached. */
module Entanglement {
  import opened Schema
  import opened Ledger
  import opened IngestSystem
  import opened IngestInvariant
  import opened ExactlyOnce
  import opened Deadlock

  predicate Names(items: seq<NodeIn>, n: nat, k: NodeKey) {
    exists m :: 0 <= m < n <= |items| && items[m].key == k
  }

  function ItemsOf(d: Deployment, r: RunId): seq<NodeIn>
    requires r in d.pushes
  {
    Seen(d.pushes[r].body.results)
  }

  /** The nodes that the store knows once the pushes `first` are stored. */
  function Known(d: Deployment, first: seq<RunId>): set<NodeKey>
    requires forall r :: r in first ==> r in d.pushes
  {
    if |first| == 0 then {}
    else Known(d, first[..|first| - 1]) + BatchKeys(d.pushes[first[|first| - 1]].body.results)
  }

  /** After `n` of its nodes, push `r` holds `k`: it named it, and the store did not know it. */
  predicate Takes(d: Deployment, r: RunId, n: nat, known: set<NodeKey>, k: NodeKey)
    requires r in d.pushes
  {
    Names(ItemsOf(d, r), n, k) && k !in known
  }

  predicate Admitted(d: Deployment, r: RunId) { r in d.pushes && d.Admits(d.pushes[r]) }

  /** A first part of an admitted push, with a node to come. */
  predicate IsPart(d: Deployment, r: RunId, n: nat) { Admitted(d, r) && n < |ItemsOf(d, r)| }

  ghost predicate AreParts(d: Deployment, part: map<RunId, nat>) {
    part != map[] && forall r :: r in part ==> IsPart(d, r, part[r])
  }

  /** No node is taken by two of the parts. */
  ghost predicate Apart(d: Deployment, known: set<NodeKey>, part: map<RunId, nat>)
    requires AreParts(d, part)
  {
    forall p, q, k :: p in part && q in part && Takes(d, p, part[p], known, k) && Takes(d, q, part[q], known, k) ==>
      p == q
  }

  /** The node that comes next after a part is taken by one of them. */
  ghost predicate NextTaken(d: Deployment, known: set<NodeKey>, part: map<RunId, nat>, p: RunId)
    requires AreParts(d, part) && p in part
  {
    exists q :: q in part && Takes(d, q, part[q], known, ItemsOf(d, p)[part[p]].key)
  }

  /** Different admitted pushes, stored one after another. */
  ghost predicate AreStored(d: Deployment, first: seq<RunId>) {
    && (forall r :: r in first ==> Admitted(d, r))
    && (forall i, j :: 0 <= i < j < |first| ==> first[i] != first[j])
  }

  /** Once the pushes `first` are stored, each other push of `part` can have done so many of
      its nodes that they take different nodes and each comes to one that another has taken. */
  ghost predicate Entangled(d: Deployment, first: seq<RunId>, part: map<RunId, nat>) {
    && AreStored(d, first) && AreParts(d, part) && (forall r :: r in part ==> r !in first)
    && Apart(d, Known(d, first), part)
    && forall p {:trigger NextTaken(d, Known(d, first), part, p)} :: p in part ==>
         NextTaken(d, Known(d, first), part, p)
  }

  // ---- what a running upsert has done ----

  /** `t` has done the first `n` of its nodes: it sees all of them, and has inserted no other. */
  ghost predicate DoneUpTo(s: Sys, t: nat, items: seq<NodeIn>, n: nat)
    requires t in s.txs && s.txs[t].stage.Upserting?
  {
    && n <= |items| && s.txs[t].stage.todo == items[n..]
    && (forall m :: 0 <= m < n ==> s.Sees(t, items[m].key))
    && (forall i :: i in s.nodes && s.nodes[i].xmin == t ==> Names(items, n, s.nodes[i].key))
  }

  ghost predicate DoneOk(s: Sys, t: nat)
    requires t in s.txs
  {
    s.txs[t].stage.Upserting? ==>
      var items, todo := Seen(s.txs[t].body.results), s.txs[t].stage.todo;
      |todo| <= |items| && DoneUpTo(s, t, items, |items| - |todo|)
  }

  lemma {:induction false} DoneKept(s: Sys, s': Sys, a: nat, u: nat)
    requires OnlyTouches(s, s', a) && u != a && u in s.txs && DoneOk(s, u)
    ensures DoneOk(s', u)
  {
    forall k | s.Sees(u, k) ensures s'.Sees(u, k) {
      SeesKept(s, s', a, u, k);
    }
  }

  lemma {:induction false} DoneSame(s: Sys, s': Sys, u: nat)
    requires s'.nodes == s.nodes && s'.committed == s.committed && s'.txs == s.txs && u in s.txs && DoneOk(s, u)
    ensures DoneOk(s', u)
  {
    forall k | s.Sees(u, k) ensures s'.Sees(u, k) {
      var i :| s.SeesNode(u, i) && s.nodes[i].key == k;
      assert s'.SeesNode(u, i);
    }
  }

  lemma {:induction false} OthersDone(d: Deployment, s: Sys, step: Step, u: nat)
    requires TablesOk(s) && TxsOk(d, s) && Enabled(d, s, step) && u in s.txs && DoneOk(s, u)
    requires IsOutside(step) || Actor(step) != u
    ensures u in Apply(d, s, step).txs && DoneOk(Apply(d, s, step), u)
  {
    StepTouches(d, s, step);
    if IsOutside(step) {
      DoneSame(s, Apply(d, s, step), u);
    } else {
      DoneKept(s, Apply(d, s, step), Actor(step), u);
    }
  }

  lemma {:induction false} UpsertSees(d: Deployment, s: Sys, t: nat, k: NodeKey)
    requires TablesOk(s) && t in s.txs && t !in s.committed && Enabled(d, s, UpsertNode(t))
    requires s.Sees(t, k) || k == s.txs[t].stage.todo[0].key
    ensures Apply(d, s, UpsertNode(t)).Sees(t, k)
  {
    UpsertNodeTouches(s, t);
    UpsertedKeyIsSeen(s, t);
    if s.Sees(t, k) {
      var i :| s.SeesNode(t, i) && s.nodes[i].key == k;
      assert Apply(d, s, UpsertNode(t)).SeesNode(t, i);
    }
  }

  lemma {:induction false} UpsertWrites(d: Deployment, s: Sys, t: nat, items: seq<NodeIn>, n: nat)
    requires t in s.txs && Enabled(d, s, UpsertNode(t)) && n < |items| && s.txs[t].stage.todo[0] == items[n]
    requires forall i :: i in s.nodes && s.nodes[i].xmin == t ==> Names(items, n, s.nodes[i].key)
    ensures var s' := Apply(d, s, UpsertNode(t));
      forall i :: i in s'.nodes && s'.nodes[i].xmin == t ==> Names(items, n + 1, s'.nodes[i].key)
  {
    var s' := Apply(d, s, UpsertNode(t));
    forall i | i in s'.nodes && s'.nodes[i].xmin == t ensures Names(items, n + 1, s'.nodes[i].key) {
      if s'.nodes[i].key != items[n].key {
        assert i in s.nodes && s.nodes[i] == s'.nodes[i];
        var m :| 0 <= m < n && items[m].key == s.nodes[i].key;
      }
    }
  }

  lemma {:induction false} UpsertDone(d: Deployment, s: Sys, t: nat, items: seq<NodeIn>, n: nat)
    requires TablesOk(s) && t in s.txs && t !in s.committed && Enabled(d, s, UpsertNode(t)) && DoneUpTo(s, t, items, n)
    ensures DoneUpTo(Apply(d, s, UpsertNode(t)), t, items, n + 1)
  {
    assert s.txs[t].stage.todo[0] == items[n] && s.txs[t].stage.todo[1..] == items[n + 1..];
    UpsertWrites(d, s, t, items, n);
    forall m | 0 <= m < n + 1 ensures Apply(d, s, UpsertNode(t)).Sees(t, items[m].key) {
      UpsertSees(d, s, t, items[m].key);
    }
  }

  lemma {:induction false} OwnUpsertDone(d: Deployment, s: Sys, t: nat)
    requires TablesOk(s) && t in s.txs && t !in s.committed && Enabled(d, s, UpsertNode(t)) && DoneOk(s, t)
    ensures DoneOk(Apply(d, s, UpsertNode(t)), t)
  {
    var items := Seen(s.txs[t].body.results);
    UpsertDone(d, s, t, items, |items| - |s.txs[t].stage.todo|);
  }

  lemma {:induction false} InsertDone(d: Deployment, s: Sys, t: nat)
    requires t in s.txs && Enabled(d, s, InsertRun(t)) && TxOk(d, s, t)
    ensures DoneOk(Apply(d, s, InsertRun(t)), t)
  {
  }

  lemma {:induction false} OwnDone(d: Deployment, s: Sys, step: Step, t: nat)
    requires TablesOk(s) && Enabled(d, s, step) && !IsOutside(step) && Actor(step) == t
    requires t in s.txs ==> TxOk(d, s, t) && DoneOk(s, t)
    ensures t in Apply(d, s, step).txs ==> DoneOk(Apply(d, s, step), t)
  {
    if step.UpsertNode? {
      RunningIsUncommitted(d, s, t);
      OwnUpsertDone(d, s, t);
    } else if step.InsertRun? {
      InsertDone(d, s, t);
    } else if step.AddResults? {
      AddResultsTx(d, s, t);
    }
  }

  lemma {:induction false} RunDone(d: Deployment, steps: seq<Step>, t: nat)
    requires d.Valid() && Exec(d, steps).Some? && t in Exec(d, steps).value.txs
    ensures DoneOk(Exec(d, steps).value, t)
  {
    var n := |steps| - 1;
    var s, step := Exec(d, steps[..n]).value, steps[n];
    Serialisable(d, steps[..n]);
    StepTouches(d, s, step);
    if t in s.txs {
      RunDone(d, steps[..n], t);
    }
    if !IsOutside(step) && Actor(step) == t {
      OwnDone(d, s, step, t);
    } else {
      OthersDone(d, s, step, t);
    }
  }

  // ---- what the store knows ----

  function IdsOf(ps: seq<RunIn>): seq<RunId> {
    seq(|ps|, i requires 0 <= i < |ps| => ps[i].runId)
  }

  lemma {:induction false} NewIdIsNotReplayed(ps: seq<RunIn>, r: RunId)
    requires forall i :: 0 <= i < |ps| ==> ps[i].runId != r
    ensures r !in Replay(ps).runs
  {
    if |ps| > 0 {
      NewIdIsNotReplayed(ps[..|ps| - 1], r);
    }
  }

  /** After batches of different runs the store knows the nodes that any of them names. */
  lemma {:induction false} KnownIsReplayed(d: Deployment, ps: seq<RunIn>)
    requires OwnBatches(d, ps)
    ensures forall r :: r in IdsOf(ps) ==> r in d.pushes
    ensures Known(d, IdsOf(ps)) == Replay(ps).nodes.Keys
  {
    if |ps| > 0 {
      var n := |ps| - 1;
      KnownIsReplayed(d, ps[..n]);
      assert IdsOf(ps)[..n] == IdsOf(ps[..n]);
      NewIdIsNotReplayed(ps[..n], ps[n].runId);
    }
  }

  /** What every reachable state is, for the batches that have committed. */
  ghost predicate Settled(d: Deployment, s: Sys, ps: seq<RunIn>) {
    Explains(d, s, ps) && forall t :: t in s.txs ==> DoneOk(s, t)
  }

  lemma {:induction false} ReachableIsSettled(d: Deployment, steps: seq<Step>)
    requires d.Valid() && Exec(d, steps).Some?
    ensures Settled(d, Exec(d, steps).value, Commits(d, steps))
  {
    Serialisable(d, steps);
    forall t | t in Exec(d, steps).value.txs ensures DoneOk(Exec(d, steps).value, t) {
      RunDone(d, steps, t);
    }
  }

  lemma {:induction false} CommittedIsAdmitted(d: Deployment, s: Sys, ps: seq<RunIn>, i: nat)
    requires CountsOk(d, s) && RunsRepresent(s, Replay(ps)) && i < |ps|
    ensures Admitted(d, ps[i].runId) && s.HasRun(ps[i].runId)
  {
    CommittedRunIsReplayed(ps, i);
  }

  // ---- a deadlock is an entanglement ----

  /** How many of its nodes an upsert has done. */
  ghost function DoneCount(s: Sys, t: nat): nat
    requires t in s.txs && s.txs[t].stage.Upserting? && DoneOk(s, t)
  {
    |Seen(s.txs[t].body.results)| - |s.txs[t].stage.todo|
  }

  /** What an upsert takes is what it has inserted. */
  lemma {:induction false} TakesIsHeld(d: Deployment, s: Sys, ps: seq<RunIn>, t: nat, k: NodeKey)
    requires Settled(d, s, ps) && Writing(s, t) && s.txs[t].stage.Upserting?
    ensures s.txs[t].body.runId in d.pushes && forall r :: r in IdsOf(ps) ==> r in d.pushes
    ensures Takes(d, s.txs[t].body.runId, DoneCount(s, t), Known(d, IdsOf(ps)), k) <==> Holds(s, t, k)
  {
    KnownIsReplayed(d, ps);
    assert TxOk(d, s, t) && DoneOk(s, t);
    var items, n := Seen(s.txs[t].body.results), DoneCount(s, t);
    if Names(items, n, k) && k !in Replay(ps).nodes {
      var m :| 0 <= m < n && items[m].key == k;
      assert s.Sees(t, items[m].key);
      var i :| s.SeesNode(t, i) && s.nodes[i].key == k;
      assert !s.CommittedNode(i);
    }
    if Holds(s, t, k) && k in Replay(ps).nodes {
      HeldIsNotCommitted(s, t, k);
    }
  }

  lemma {:induction false} HeldIsNotCommitted(s: Sys, t: nat, k: NodeKey)
    requires TablesOk(s) && t !in s.committed && Holds(s, t, k)
    ensures !s.HasNode(k)
  {
  }

  lemma {:induction false} SameHolder(s: Sys, t: nat, u: nat, k: NodeKey)
    requires TablesOk(s) && Holds(s, t, k) && Holds(s, u, k)
    ensures t == u
  {
  }

  lemma {:induction false} SameRunSameTx(d: Deployment, s: Sys, t: nat, u: nat)
    requires TablesOk(s) && TxsOk(d, s) && Writing(s, t) && Writing(s, u) && s.txs[t].body.runId == s.txs[u].body.runId
    ensures t == u
  {
    assert TxOk(d, s, t) && TxOk(d, s, u);
  }

  predicate Crosses(s: Sys, ts: set<nat>, t: nat) { t in ts && Writing(s, t) && Wants(s, t) }

  lemma {:induction false} HolderWaits(d: Deployment, s: Sys, t: nat, u: nat)
    requires TablesOk(s) && TxsOk(d, s) && WaitsFor(s, t, u)
    ensures Writing(s, u)
  {
    if Wants(s, t) {
      var i :| i in s.nodes && s.nodes[i].key == s.txs[t].stage.todo[0].key && s.nodes[i].xmin == u;
      HolderWrites(d, s, u);
    } else {
      var pk :| pk in s.runs && s.runs[pk].externalId == s.txs[t].body.runId && s.runs[pk].xmin == u;
      HolderWrites(d, s, u);
    }
  }

  lemma {:induction false} WritingWants(s: Sys, t: nat, ts: set<nat>)
    requires Writing(s, t) && Blocked(s, t, ts)
    ensures Wants(s, t)
  {
  }

  /** A deadlocked transaction waits for one that is in the middle of its upsert. */
  lemma {:induction false} WaitsForCrossing(d: Deployment, s: Sys, ts: set<nat>, t: nat) returns (u: nat)
    requires TablesOk(s) && TxsOk(d, s) && DeadlockOf(s, ts) && t in ts
    ensures Crosses(s, ts, u) && WaitsFor(s, t, u)
  {
    u := SomeHolder(s, ts, t);
    HolderWaits(d, s, t, u);
    WritingWants(s, u, ts);
  }

  lemma {:induction false} SomeHolder(s: Sys, ts: set<nat>, t: nat) returns (u: nat)
    requires DeadlockOf(s, ts) && t in ts
    ensures u in ts && WaitsFor(s, t, u) && Blocked(s, u, ts)
  {
    assert Blocked(s, t, ts);
    u :| u in ts && WaitsFor(s, t, u);
  }

  ghost predicate CrossingSet(d: Deployment, s: Sys, ws: set<nat>) {
    && (forall t :: t in ws ==> Writing(s, t) && Wants(s, t) && DoneOk(s, t))
    && (forall t, u :: t in ws && u in ws && s.txs[t].body.runId == s.txs[u].body.runId ==> t == u)
  }

  /** The pushes of some crossing upserts, and how much of each is done. */
  ghost function Parts(d: Deployment, s: Sys, ws: set<nat>): map<RunId, nat>
    requires CrossingSet(d, s, ws)
  {
    map t | t in ws :: s.txs[t].body.runId := DoneCount(s, t)
  }

  lemma {:induction false} PartIsAdmitted(d: Deployment, s: Sys, ps: seq<RunIn>, t: nat)
    requires Settled(d, s, ps) && Writing(s, t) && Wants(s, t)
    ensures var r := s.txs[t].body.runId; Admitted(d, r) && r !in IdsOf(ps) && DoneCount(s, t) < |ItemsOf(d, r)|
  {
    assert TxOk(d, s, t) && DoneOk(s, t);
    forall i | 0 <= i < |ps| ensures ps[i].runId != s.txs[t].body.runId {
      CommittedIsAdmitted(d, s, ps, i);
      WritesNew(s, t, s.txs[t].body, s.txs[t].stage.runPk);
    }
  }

  /** A run that is being written is not stored yet. */
  lemma {:induction false} WritesNew(s: Sys, t: nat, b: RunIn, pk: nat)
    requires TablesOk(s) && WroteRun(s, t, b, pk)
    ensures !s.HasRun(b.runId)
  {
  }

  lemma {:induction false} NextIsTaken(d: Deployment, s: Sys, ps: seq<RunIn>, ts: set<nat>, t: nat) returns (u: nat)
    requires Settled(d, s, ps) && DeadlockOf(s, ts) && Crosses(s, ts, t)
    ensures Crosses(s, ts, u) && DoneOk(s, u) && s.txs[u].body.runId in d.pushes
    ensures forall r :: r in IdsOf(ps) ==> r in d.pushes
    ensures Takes(d, s.txs[u].body.runId, DoneCount(s, u), Known(d, IdsOf(ps)), s.txs[t].stage.todo[0].key)
  {
    u := WaitsForCrossing(d, s, ts, t);
    TakesIsHeld(d, s, ps, u, s.txs[t].stage.todo[0].key);
  }

  /** The node that comes next after what is done. */
  lemma {:induction false} NextIsHead(d: Deployment, s: Sys, ps: seq<RunIn>, t: nat)
    requires Settled(d, s, ps) && Writing(s, t) && Wants(s, t)
    ensures var r := s.txs[t].body.runId;
      r in d.pushes && DoneCount(s, t) < |ItemsOf(d, r)| && ItemsOf(d, r)[DoneCount(s, t)] == s.txs[t].stage.todo[0]
  {
    assert TxOk(d, s, t) && DoneOk(s, t);
  }

  lemma {:induction false} PartsAreDisjoint(d: Deployment, s: Sys, ps: seq<RunIn>, t: nat, u: nat, k: NodeKey)
    requires Settled(d, s, ps) && Writing(s, t) && Wants(s, t) && Writing(s, u) && Wants(s, u)
    requires forall r :: r in IdsOf(ps) ==> r in d.pushes
    requires s.txs[t].body.runId in d.pushes && s.txs[u].body.runId in d.pushes
    requires Takes(d, s.txs[t].body.runId, DoneCount(s, t), Known(d, IdsOf(ps)), k)
    requires Takes(d, s.txs[u].body.runId, DoneCount(s, u), Known(d, IdsOf(ps)), k)
    ensures t == u
  {
    TakesIsHeld(d, s, ps, t, k);
    TakesIsHeld(d, s, ps, u, k);
    SameHolder(s, t, u, k);
  }

  lemma {:induction false} CrossingsOf(d: Deployment, s: Sys, ts: set<nat>) returns (ws: set<nat>)
    requires TablesOk(s) && TxsOk(d, s) && DeadlockOf(s, ts) && forall t :: t in s.txs ==> DoneOk(s, t)
    ensures CrossingSet(d, s, ws) && ws != {} && forall t :: t in ws <==> Crosses(s, ts, t)
  {
    var u := SomeCrossing(d, s, ts);
    ws := CrossingTxs(s, ts);
    assert u in ws;
    CrossingsDiffer(d, s, ts, ws);
  }

  function CrossingTxs(s: Sys, ts: set<nat>): (ws: set<nat>)
    ensures forall t :: t in ws <==> Crosses(s, ts, t)
  {
    set t | t in ts && Crosses(s, ts, t)
  }

  lemma {:induction false} SomeCrossing(d: Deployment, s: Sys, ts: set<nat>) returns (u: nat)
    requires TablesOk(s) && TxsOk(d, s) && DeadlockOf(s, ts)
    ensures Crosses(s, ts, u)
  {
    var t :| t in ts;
    u := WaitsForCrossing(d, s, ts, t);
  }

  lemma {:induction false} CrossingsDiffer(d: Deployment, s: Sys, ts: set<nat>, ws: set<nat>)
    requires TablesOk(s) && TxsOk(d, s) && (forall t :: t in ws ==> Crosses(s, ts, t))
    requires forall t :: t in s.txs ==> DoneOk(s, t)
    ensures CrossingSet(d, s, ws)
  {
    forall t, u | t in ws && u in ws && s.txs[t].body.runId == s.txs[u].body.runId ensures t == u {
      SameRunSameTx(d, s, t, u);
    }
  }

  /** The part of a crossing upsert, and the transaction of a part. */
  lemma {:induction false} PartOf(d: Deployment, s: Sys, ws: set<nat>, t: nat)
    requires CrossingSet(d, s, ws) && t in ws
    ensures s.txs[t].body.runId in Parts(d, s, ws) && Parts(d, s, ws)[s.txs[t].body.runId] == DoneCount(s, t)
  {
  }

  lemma {:induction false} TxOf(d: Deployment, s: Sys, ws: set<nat>, r: RunId) returns (t: nat)
    requires CrossingSet(d, s, ws) && r in Parts(d, s, ws)
    ensures t in ws && s.txs[t].body.runId == r && Parts(d, s, ws)[r] == DoneCount(s, t)
  {
    t :| t in ws && s.txs[t].body.runId == r;
  }

  lemma {:induction false} PartsAreParts(d: Deployment, s: Sys, ps: seq<RunIn>, ws: set<nat>)
    requires Settled(d, s, ps) && CrossingSet(d, s, ws) && ws != {}
    ensures AreParts(d, Parts(d, s, ws)) && forall r :: r in Parts(d, s, ws) ==> r !in IdsOf(ps)
  {
    var t0 :| t0 in ws;
    PartOf(d, s, ws, t0);
    forall r | r in Parts(d, s, ws) ensures IsPart(d, r, Parts(d, s, ws)[r]) && r !in IdsOf(ps) {
      var t := TxOf(d, s, ws, r);
      PartIsAdmitted(d, s, ps, t);
    }
  }

  lemma {:induction false} PartsAreApart(d: Deployment, s: Sys, ps: seq<RunIn>, ws: set<nat>)
    requires Settled(d, s, ps) && CrossingSet(d, s, ws) && AreParts(d, Parts(d, s, ws))
    requires forall r :: r in IdsOf(ps) ==> r in d.pushes
    ensures Apart(d, Known(d, IdsOf(ps)), Parts(d, s, ws))
  {
    var part, known := Parts(d, s, ws), Known(d, IdsOf(ps));
    forall p, q, k | p in part && q in part && Takes(d, p, part[p], known, k) && Takes(d, q, part[q], known, k)
      ensures p == q
    {
      var t := TxOf(d, s, ws, p);
      var u := TxOf(d, s, ws, q);
      PartsAreDisjoint(d, s, ps, t, u, k);
    }
  }

  lemma {:induction false} PartsGoOn(d: Deployment, s: Sys, ps: seq<RunIn>, ts: set<nat>, ws: set<nat>, p: RunId)
    requires Settled(d, s, ps) && DeadlockOf(s, ts) && CrossingSet(d, s, ws) && AreParts(d, Parts(d, s, ws))
    requires (forall t :: t in ws <==> Crosses(s, ts, t)) && p in Parts(d, s, ws)
    requires forall r :: r in IdsOf(ps) ==> r in d.pushes
    ensures NextTaken(d, Known(d, IdsOf(ps)), Parts(d, s, ws), p)
  {
    var t := TxOf(d, s, ws, p);
    var u := NextIsTaken(d, s, ps, ts, t);
    NextIsHead(d, s, ps, t);
    PartOf(d, s, ws, u);
  }

  lemma {:induction false} CommitsAreStored(d: Deployment, s: Sys, ps: seq<RunIn>)
    requires CountsOk(d, s) && RunsRepresent(s, Replay(ps)) && OwnBatches(d, ps)
    ensures AreStored(d, IdsOf(ps))
  {
    forall i | 0 <= i < |ps| ensures Admitted(d, ps[i].runId) {
      CommittedIsAdmitted(d, s, ps, i);
    }
  }

  /** A deadlock in any reachable state is an entanglement of the pushes that are then
      stored with the parts that its upserts have done. */
  lemma {:induction false} DeadlockIsEntangled(d: Deployment, steps: seq<Step>, ts: set<nat>)
    returns (first: seq<RunId>, part: map<RunId, nat>)
    requires d.Valid() && Exec(d, steps).Some? && DeadlockOf(Exec(d, steps).value, ts)
    ensures Entangled(d, first, part)
  {
    ReachableIsSettled(d, steps);
    first, part := SettledEntangles(d, Exec(d, steps).value, Commits(d, steps), ts);
  }

  lemma {:induction false} SettledEntangles(d: Deployment, s: Sys, ps: seq<RunIn>, ts: set<nat>)
    returns (first: seq<RunId>, part: map<RunId, nat>)
    requires Settled(d, s, ps) && DeadlockOf(s, ts)
    ensures Entangled(d, first, part)
  {
    var ws := CrossingsOf(d, s, ts);
    first, part := IdsOf(ps), Parts(d, s, ws);
    CommitsAreStored(d, s, ps);
    PartsAreParts(d, s, ps, ws);
    PartsAreApart(d, s, ps, ws);
    forall p | p in part ensures NextTaken(d, Known(d, first), part, p) {
      PartsGoOn(d, s, ps, ts, ws, p);
    }
  }

  // ---- one order ----

  /** In a deadlock each crossing upsert waits for one that wants a node of higher rank. */
  lemma {:induction false} RankEnds(d: Deployment, s: Sys, rank: Rank, ts: set<nat>, t: nat)
    requires TablesOk(s) && TxsOk(d, s) && Ranked(s, rank) && DeadlockOf(s, ts) && Crosses(s, ts, t)
    ensures false
    decreases Level(s, rank, t)
  {
    var u := WaitsForCrossing(d, s, ts, t);
    HigherRank(s, rank, t, u);
    LevelFalls(s, rank, t, u);
    RankEnds(d, s, rank, ts, u);
  }

  lemma {:induction false} HigherRank(s: Sys, rank: Rank, t: nat, u: nat)
    requires Ranked(s, rank) && Wants(s, t) && Wants(s, u) && WaitsFor(s, t, u)
    ensures rank(s.txs[t].stage.todo[0].key) < rank(s.txs[u].stage.todo[0].key)
  {
    assert RankedTx(s, u, rank);
  }

  /** When all admitted batches name their nodes in one order, no requests ever come to wait
      for each other, not even while others go on. */
  lemma {:induction false} OneOrderHasNoDeadlock(d: Deployment, rank: Rank, steps: seq<Step>, ts: set<nat>)
    requires d.Valid() && Ordered(d, rank) && Exec(d, steps).Some?
    ensures !DeadlockOf(Exec(d, steps).value, ts)
  {
    var s := Exec(d, steps).value;
    Serialisable(d, steps);
    RunRanked(d, steps, rank);
    if DeadlockOf(s, ts) {
      var t := SomeCrossing(d, s, ts);
      RankEnds(d, s, rank, ts, t);
    }
  }
}
