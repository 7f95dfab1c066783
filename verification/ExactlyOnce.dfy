/** Safety of the push over every run of clients, network and transactions. */
module ExactlyOnce {
  import opened Base
  import opened Schema
  import opened Ledger
  import opened PushClient
  import opened IngestSystem
  import opened IngestInvariant

  // ---- the remaining steps ----

  /** A step of a client or of the wire. */
  lemma {:induction false} OutsideKeeps(d: Deployment, s: Sys, s': Sys, l: Ledger)
    requires Inv(d, s) && Represents(s, l)
    requires s' == s.(clients := s'.clients, requests := s'.requests, replies := s'.replies)
    requires MessagesOk(d, s') && ClientsOk(d, s')
    ensures Inv(d, s') && Represents(s', l)
  {
    LedgerKept(s, s', 0, l);
    CountsKept(d, s, s', 0);
    forall t | t in s'.txs ensures TxOk(d, s', t) {
      OtherTxOk(d, s, s', t + 1, t);
    }
  }

  lemma {:induction false} HasRunOutside(s: Sys, s': Sys)
    requires s'.runs == s.runs && s'.committed == s.committed
    ensures forall r :: s.HasRun(r) <==> s'.HasRun(r)
  {
    forall r | s.HasRun(r) ensures s'.HasRun(r) {
      var pk :| s.CommittedRun(pk) && s.runs[pk].externalId == r;
      assert s'.CommittedRun(pk);
    }
    forall r | s'.HasRun(r) ensures s.HasRun(r) {
      var pk :| s'.CommittedRun(pk) && s'.runs[pk].externalId == r;
      assert s.CommittedRun(pk);
    }
  }

  predicate IsOutside(step: Step) {
    step.Send? || step.Receive? || step.LoseContact? || step.CancelWait? || step.Refuse?
  }

  lemma {:induction false} OutsideMessages(d: Deployment, s: Sys, step: Step)
    requires d.Valid() && MessagesOk(d, s) && ClientsOk(d, s) && Enabled(d, s, step) && IsOutside(step)
    ensures MessagesOk(d, Apply(d, s, step))
  {
    HasRunOutside(s, Apply(d, s, step));
  }

  lemma {:induction false} OutsideClients(d: Deployment, s: Sys, step: Step)
    requires MessagesOk(d, s) && ClientsOk(d, s) && Enabled(d, s, step) && IsOutside(step)
    ensures ClientsOk(d, Apply(d, s, step))
  {
    HasRunOutside(s, Apply(d, s, step));
    if step.Receive? {
      assert Judge(Response(HttpCode(step.reply.status))) == match step.reply.status
        case Created(_, _) => Delivered case Rejected => Permanent case Crashed => Transient;
    }
  }

  lemma {:induction false} ClientStepKeeps(d: Deployment, s: Sys, step: Step, l: Ledger)
    requires d.Valid() && Inv(d, s) && Represents(s, l) && Enabled(d, s, step) && IsOutside(step)
    ensures Inv(d, Apply(d, s, step)) && Represents(Apply(d, s, step), l)
  {
    OutsideMessages(d, s, step);
    OutsideClients(d, s, step);
    OutsideKeeps(d, s, Apply(d, s, step), l);
  }

  lemma {:induction false} BeginKeeps(d: Deployment, s: Sys, t: nat, q: Push, l: Ledger)
    requires Inv(d, s) && Represents(s, l) && Enabled(d, s, Begin(t, q))
    ensures Inv(d, Apply(d, s, Begin(t, q))) && Represents(Apply(d, s, Begin(t, q)), l)
  {
    BeginTx(d, s, t, q);
    QuietStep(d, s, Apply(d, s, Begin(t, q)), t, l);
  }

  lemma {:induction false} BeginTx(d: Deployment, s: Sys, t: nat, q: Push)
    requires TablesOk(s) && MessagesOk(d, s) && Enabled(d, s, Begin(t, q))
    ensures var s' := Apply(d, s, Begin(t, q)); TablesOk(s') && TxOk(d, s', t) && OnlyTouches(s, s', t)
  {
    assert WroteNothing(Apply(d, s, Begin(t, q)), t);
  }

  lemma {:induction false} BreakReplyKeeps(d: Deployment, s: Sys, t: nat, l: Ledger)
    requires Inv(d, s) && Represents(s, l) && Enabled(d, s, BreakReply(t))
    ensures Inv(d, Apply(d, s, BreakReply(t))) && Represents(Apply(d, s, BreakReply(t)), l)
  {
    BrokenTx(d, s, t);
    StandKeeps(d, s, t, Decided(Crashed), l);
  }

  lemma {:induction false} BrokenTx(d: Deployment, s: Sys, t: nat)
    requires t in s.txs && TxOk(d, s, t) && s.txs[t].stage.Decided?
    ensures TxOk(d, Stand(s, t, Decided(Crashed)), t)
  {
  }

  /** The request is over: the transaction is forgotten. */
  lemma {:induction false} ForgetKeeps(d: Deployment, s: Sys, t: nat, l: Ledger)
    requires Inv(d, s) && Represents(s, l) && t in s.txs && s.txs[t].stage.Decided?
    ensures Inv(d, s.(txs := s.txs - {t})) && Represents(s.(txs := s.txs - {t}), l)
  {
    assert t in s.committed || WroteNothing(s, t) by { assert TxOk(d, s, t); }
    ForgetTables(s, t);
    QuietStep(d, s, s.(txs := s.txs - {t}), t, l);
  }

  lemma {:induction false} ForgetTables(s: Sys, t: nat)
    requires TablesOk(s) && t in s.txs && (t in s.committed || WroteNothing(s, t))
    ensures TablesOk(s.(txs := s.txs - {t})) && OnlyTouches(s, s.(txs := s.txs - {t}), t)
  {
  }

  lemma {:induction false} AnswerMessages(d: Deployment, s: Sys, t: nat)
    requires MessagesOk(d, s) && Enabled(d, s, Answer(t)) && TxOk(d, s, t)
    ensures MessagesOk(d, Apply(d, s, Answer(t)))
  {
    HasRunOutside(s, Apply(d, s, Answer(t)));
  }

  lemma {:induction false} AnswerClients(d: Deployment, s: Sys, t: nat)
    requires ClientsOk(d, s) && Enabled(d, s, Answer(t))
    ensures ClientsOk(d, Apply(d, s, Answer(t)))
  {
    HasRunOutside(s, Apply(d, s, Answer(t)));
  }

  lemma {:induction false} AnswerKeeps(d: Deployment, s: Sys, t: nat, l: Ledger)
    requires Inv(d, s) && Represents(s, l) && Enabled(d, s, Answer(t))
    ensures Inv(d, Apply(d, s, Answer(t))) && Represents(Apply(d, s, Answer(t)), l)
  {
    ForgetKeeps(d, s, t, l);
    AnswerMessages(d, s, t);
    AnswerClients(d, s, t);
    OutsideKeeps(d, s.(txs := s.txs - {t}), Apply(d, s, Answer(t)), l);
  }

  /** The ledger after a step: only a commit moves it. */
  ghost function LedgerAfter(s: Sys, step: Step, l: Ledger): Ledger {
    match step
    case Commit(t) => if t in s.txs then Ingest(l, s.txs[t].body) else l
    case _ => l
  }

  lemma {:induction false} RowStepKeeps(d: Deployment, s: Sys, step: Step, l: Ledger)
    requires Inv(d, s) && Represents(s, l) && Enabled(d, s, step)
    requires step.CheckRun? || step.CountStored? || step.InsertRun? || step.UpsertNode?
      || step.ReadNodes? || step.AddResults?
    ensures Inv(d, Apply(d, s, step)) && Represents(Apply(d, s, step), l)
  {
    match step
    case CheckRun(t) => CheckRunKeeps(d, s, t, l);
    case CountStored(t) => CountStoredKeeps(d, s, t, l);
    case InsertRun(t) => InsertRunKeeps(d, s, t, l);
    case UpsertNode(t) => UpsertNodeKeeps(d, s, t, l);
    case ReadNodes(t) => ReadNodesKeeps(d, s, t, l);
    case AddResults(t) => AddResultsKeeps(d, s, t, l);
  }

  lemma {:induction false} EdgeStepKeeps(d: Deployment, s: Sys, step: Step, l: Ledger)
    requires Inv(d, s) && Represents(s, l) && Enabled(d, s, step)
    requires step.Begin? || step.Abort? || step.BreakReply? || step.Answer?
    ensures Inv(d, Apply(d, s, step)) && Represents(Apply(d, s, step), l)
  {
    match step
    case Begin(t, q) => BeginKeeps(d, s, t, q, l);
    case Abort(t) => RollbackKeeps(d, s, t, l);
    case BreakReply(t) => BreakReplyKeeps(d, s, t, l);
    case Answer(t) => AnswerKeeps(d, s, t, l);
  }

  lemma {:induction false} StepKeeps(d: Deployment, s: Sys, step: Step, l: Ledger)
    requires d.Valid() && Inv(d, s) && Represents(s, l) && Enabled(d, s, step)
    ensures Inv(d, Apply(d, s, step)) && Represents(Apply(d, s, step), LedgerAfter(s, step, l))
    ensures step.Commit? ==> s.txs[step.t].body.runId !in l.runs
  {
    if IsOutside(step) {
      ClientStepKeeps(d, s, step, l);
    } else if step.Commit? {
      CommitKeeps(d, s, step.t, l);
    } else if step.Begin? || step.Abort? || step.BreakReply? || step.Answer? {
      EdgeStepKeeps(d, s, step, l);
    } else {
      RowStepKeeps(d, s, step, l);
    }
  }

  // ---- theorems over every run ----

  lemma {:induction false} InitOk(d: Deployment)
    requires d.Valid()
    ensures Inv(d, Init(d)) && Represents(Init(d), Empty)
  {
    var s := Init(d);
    assert forall pk :: !s.CommittedRun(pk);
    assert forall id :: !s.CommittedNode(id);
  }

  /** The state is what handling `ps` one after another leaves, and each of them is a
      client's own batch, under a run id of its own. */
  ghost predicate Explains(d: Deployment, s: Sys, ps: seq<RunIn>) {
    && Inv(d, s) && Represents(s, Replay(ps))
    && OwnBatches(d, ps)
  }

  ghost predicate OwnBatches(d: Deployment, ps: seq<RunIn>) {
    && (forall i, j :: 0 <= i < j < |ps| ==> ps[i].runId != ps[j].runId)
    && (forall i :: 0 <= i < |ps| ==> ps[i].runId in d.pushes && d.pushes[ps[i].runId].body == ps[i])
  }

  /** Every interleaving of overlapping requests leaves the store that handling the
      committed batches one after another, in commit order, would leave; and no run id
      commits twice. */
  lemma {:induction false} Serialisable(d: Deployment, steps: seq<Step>)
    requires d.Valid() && Exec(d, steps).Some?
    ensures Explains(d, Exec(d, steps).value, Commits(d, steps))
  {
    if |steps| == 0 {
      InitOk(d);
    } else {
      var before, step := steps[..|steps| - 1], steps[|steps| - 1];
      Serialisable(d, before);
      if step.Commit? {
        SerialCommit(d, Exec(d, before).value, step.t, Commits(d, before));
      } else {
        SerialStep(d, Exec(d, before).value, step, Commits(d, before));
      }
    }
  }

  lemma {:induction false} SerialStep(d: Deployment, s: Sys, step: Step, ps: seq<RunIn>)
    requires d.Valid() && Explains(d, s, ps) && Enabled(d, s, step) && !step.Commit?
    ensures Explains(d, Apply(d, s, step), ps)
  {
    assert LedgerAfter(s, step, Replay(ps)) == Replay(ps);
    StepKeeps(d, s, step, Replay(ps));
  }

  lemma {:induction false} SerialCommit(d: Deployment, s: Sys, t: nat, ps: seq<RunIn>)
    requires Explains(d, s, ps) && Enabled(d, s, Commit(t))
    ensures Explains(d, Apply(d, s, Commit(t)), ps + [s.txs[t].body])
  {
    assert TxOk(d, s, t);
    CommitKeeps(d, s, t, Replay(ps));
    NextCommit(d, s, t, ps);
  }

  /** The batch that commits next is a client's own, and its run id is new. */
  lemma {:induction false} NextCommit(d: Deployment, s: Sys, t: nat, ps: seq<RunIn>)
    requires OwnBatches(d, ps) && Enabled(d, s, Commit(t)) && TxOk(d, s, t) && s.txs[t].body.runId !in Replay(ps).runs
    ensures var b := s.txs[t].body; OwnBatches(d, ps + [b]) && Replay(ps + [b]) == Ingest(Replay(ps), b)
  {
    var b := s.txs[t].body;
    assert (ps + [b])[..|ps|] == ps;
    forall i | 0 <= i < |ps| ensures ps[i].runId != b.runId {
      CommittedRunIsReplayed(ps, i);
    }
  }

  lemma {:induction false} CommittedRunIsReplayed(ps: seq<RunIn>, i: nat)
    requires i < |ps|
    ensures ps[i].runId in Replay(ps).runs
  {
    if i < |ps| - 1 {
      CommittedRunIsReplayed(ps[..|ps| - 1], i);
    }
  }

  /** The rows under a run, and the ledger entries under its id, are the same list. */
  lemma {:induction false} RowsAreEntries(s: Sys, rows: seq<ResultRow>, es: seq<Entry>, pk: nat)
    requires TablesOk(s) && s.CommittedRun(pk) && |rows| == |es|
    requires forall i :: 0 <= i < |rows| ==> RowRepresents(s, rows[i], es[i])
    ensures var rs, fs := RowsOf(rows, pk), EntriesFor(es, s.runs[pk].externalId);
      |rs| == |fs| && forall i :: 0 <= i < |rs| ==> RowRepresents(s, rs[i], fs[i])
  {
    if |rows| > 0 {
      var n := |rows| - 1;
      RowsAreEntries(s, rows[..n], es[..n], pk);
      assert RowRepresents(s, rows[n], es[n]);
    }
  }

  /** The rows stored under `pk` are the whole of `b`, in order, each under the node of
      its own address and SNI. */
  ghost predicate HoldsExactly(s: Sys, pk: nat, b: RunIn) {
    var rows := RowsOf(s.results, pk);
    && |rows| == |b.results|
    && forall i :: 0 <= i < |rows| ==>
         && rows[i].m == b.results[i].m
         && s.CommittedNode(rows[i].nodeId) && s.nodes[rows[i].nodeId].key == b.results[i].node.Key()
  }

  /** In every reachable state a run id has at most one committed run, and a committed
      run holds exactly what its client posted, never a part; what the token or the schema
      refuses is never stored. */
  lemma {:induction false} AtMostOnceAndWhole(d: Deployment, steps: seq<Step>)
    requires d.Valid() && Exec(d, steps).Some?
    ensures var s := Exec(d, steps).value;
      && (forall i, j :: s.CommittedRun(i) && s.CommittedRun(j) && s.runs[i].externalId == s.runs[j].externalId ==>
            i == j)
      && (forall pk :: s.CommittedRun(pk) ==>
            var r := s.runs[pk].externalId;
            r in d.pushes && d.Admits(d.pushes[r])
            && s.runs[pk].info.source == d.pushes[r].body.source
            && s.runs[pk].info.startedAt == d.pushes[r].body.startedAt && HoldsExactly(s, pk, d.pushes[r].body))
  {
    var s, ps := Exec(d, steps).value, Commits(d, steps);
    Serialisable(d, steps);
    forall pk | s.CommittedRun(pk)
      ensures s.runs[pk].externalId in d.pushes && d.Admits(d.pushes[s.runs[pk].externalId])
        && s.runs[pk].info == Info(d.pushes[s.runs[pk].externalId].body)
        && HoldsExactly(s, pk, d.pushes[s.runs[pk].externalId].body)
    {
      CommittedRunHoldsItsBatch(d, s, ps, pk);
    }
  }

  lemma {:induction false} CommittedRunHoldsItsBatch(d: Deployment, s: Sys, ps: seq<RunIn>, pk: nat)
    requires TablesOk(s) && Represents(s, Replay(ps)) && s.CommittedRun(pk)
    requires forall i :: 0 <= i < |ps| ==> ps[i].runId in d.pushes && d.pushes[ps[i].runId].body == ps[i]
    ensures s.runs[pk].externalId in d.pushes
    ensures s.runs[pk].info == Info(d.pushes[s.runs[pk].externalId].body)
    ensures HoldsExactly(s, pk, d.pushes[s.runs[pk].externalId].body)
  {
    var r := s.runs[pk].externalId;
    ReplayStoresFirstBatchWhole(ps, r);
    var p := FirstRun(ps, r).value;
    assert d.pushes[r].body == p;
    var rows, es := RowsOf(s.results, pk), EntriesOf(p);
    RowsAreEntries(s, s.results, Replay(ps).entries, pk);
    forall i | 0 <= i < |rows|
      ensures rows[i].m == p.results[i].m
        && s.CommittedNode(rows[i].nodeId) && s.nodes[rows[i].nodeId].key == p.results[i].node.Key()
    {
      assert RowRepresents(s, rows[i], es[i]);
    }
  }

  /** What a client may conclude. Success means stored, and by the lemma above exactly
      once and whole. A refusal means never stored. Every created reply, duplicate or
      not, reports the size of the batch. */
  lemma {:induction false} ClientsMayTrustTheReply(d: Deployment, steps: seq<Step>)
    requires d.Valid() && Exec(d, steps).Some?
    ensures var s := Exec(d, steps).value;
      && (forall r :: r in s.clients && s.clients[r].Stored? ==> r in d.pushes && s.HasRun(r))
      && (forall r :: r in s.clients && s.clients[r].Refused? ==>
            r in d.pushes && !d.Admits(d.pushes[r]) && !s.HasRun(r))
      && (forall m :: m in s.replies && m.status.Created? ==>
            m.runId in d.pushes && s.HasRun(m.runId) && m.status.stored == |d.pushes[m.runId].body.results|)
      && (forall m :: m in s.replies && m.status.Rejected? ==> !s.HasRun(m.runId))
  {
    Serialisable(d, steps);
  }

  /** Committed rows are never changed or removed by any continuation of the run. */
  lemma {:induction false} CommittedIsForEver(d: Deployment, steps: seq<Step>, more: seq<Step>)
    requires d.Valid() && Exec(d, steps + more).Some?
    ensures Exec(d, steps).Some?
    ensures var s, s' := Exec(d, steps).value, Exec(d, steps + more).value;
      && (forall i :: s.CommittedNode(i) ==> s'.CommittedNode(i) && s'.nodes[i] == s.nodes[i])
      && (forall i :: s.CommittedRun(i) ==> s'.CommittedRun(i) && s'.runs[i] == s.runs[i])
      && s.results <= s'.results
  {
    if |more| == 0 {
      assert steps + more == steps;
    } else {
      var n := |more| - 1;
      assert (steps + more)[..|steps + more| - 1] == steps + more[..n];
      CommittedIsForEver(d, steps, more[..n]);
      Serialisable(d, steps + more[..n]);
      StepKeepsCommitted(d, Exec(d, steps + more[..n]).value, more[n]);
    }
  }

  /** Which transaction's rows a step may touch; a step outside the server touches none. */
  function Actor(step: Step): nat {
    match step
    case Begin(t, _) => t
    case CheckRun(t) => t
    case CountStored(t) => t
    case InsertRun(t) => t
    case UpsertNode(t) => t
    case ReadNodes(t) => t
    case AddResults(t) => t
    case Commit(t) => t
    case Abort(t) => t
    case BreakReply(t) => t
    case Answer(t) => t
    case _ => 0
  }

  lemma {:induction false} InsertRunTouches(d: Deployment, s: Sys, t: nat)
    requires TablesOk(s) && t in s.txs && t !in s.committed && Enabled(d, s, InsertRun(t))
    ensures OnlyTouches(s, Apply(d, s, InsertRun(t)), t) && Apply(d, s, InsertRun(t)).results == s.results
  {
    if exists pk :: pk in s.runs && s.runs[pk].externalId == s.txs[t].body.runId {
      RollbackTouches(s, t);
    } else {
      InsertRunTables(s, t);
    }
  }

  lemma {:induction false} WritingStepTouches(d: Deployment, s: Sys, step: Step)
    requires TablesOk(s) && Enabled(d, s, step)
    requires step.InsertRun? || step.UpsertNode? || step.AddResults? || step.Abort?
    requires TxOk(d, s, Actor(step)) && Actor(step) !in s.committed
    ensures OnlyTouches(s, Apply(d, s, step), Actor(step)) && Apply(d, s, step).results == s.results
  {
    match step
    case InsertRun(t) => InsertRunTouches(d, s, t);
    case UpsertNode(t) => UpsertNodeTouches(s, t);
    case AddResults(t) => AddResultsTouches(d, s, t);
    case Abort(t) => RollbackTouches(s, t);
  }

  lemma {:induction false} AddResultsTouches(d: Deployment, s: Sys, t: nat)
    requires Enabled(d, s, AddResults(t)) && TxOk(d, s, t)
    ensures OnlyTouches(s, Apply(d, s, AddResults(t)), t) && Apply(d, s, AddResults(t)).results == s.results
  {
    AddResultsTx(d, s, t);
  }

  lemma {:induction false} OutsideStepTouches(d: Deployment, s: Sys, step: Step)
    requires Enabled(d, s, step) && IsOutside(step)
    ensures OnlyTouches(s, Apply(d, s, step), Actor(step)) && s.results <= Apply(d, s, step).results
  {
  }

  lemma {:induction false} InsideStepTouches(d: Deployment, s: Sys, step: Step)
    requires Enabled(d, s, step) && !IsOutside(step)
    requires !(step.InsertRun? || step.UpsertNode? || step.AddResults? || step.Abort?)
    ensures OnlyTouches(s, Apply(d, s, step), Actor(step)) && s.results <= Apply(d, s, step).results
  {
    if step.CountStored? {
      var st := Created(|RowsOf(s.results, s.txs[step.t].stage.existing)|, true);
      assert Apply(d, s, step) == Stand(s, step.t, Decided(st));
    }
  }

  /** Any step leaves the rows and the place of all others alone. */
  lemma {:induction false} StepTouches(d: Deployment, s: Sys, step: Step)
    requires TablesOk(s) && TxsOk(d, s) && Enabled(d, s, step)
    ensures OnlyTouches(s, Apply(d, s, step), Actor(step)) && s.results <= Apply(d, s, step).results
    ensures IsOutside(step) ==> Apply(d, s, step).txs == s.txs && Apply(d, s, step).nodes == s.nodes
  {
    if step.InsertRun? || step.UpsertNode? || step.AddResults? || step.Abort? {
      RunningIsUncommitted(d, s, Actor(step));
      WritingStepTouches(d, s, step);
    } else if IsOutside(step) {
      OutsideStepTouches(d, s, step);
    } else {
      InsideStepTouches(d, s, step);
    }
  }

  lemma {:induction false} StepKeepsCommitted(d: Deployment, s: Sys, step: Step)
    requires TablesOk(s) && TxsOk(d, s) && Enabled(d, s, step)
    ensures var s' := Apply(d, s, step);
      && (forall i :: s.CommittedNode(i) ==> s'.CommittedNode(i) && s'.nodes[i] == s.nodes[i])
      && (forall i :: s.CommittedRun(i) ==> s'.CommittedRun(i) && s'.runs[i] == s.runs[i])
      && s.results <= s'.results
  {
    StepTouches(d, s, step);
    TouchedKeepsCommitted(s, Apply(d, s, step), Actor(step));
  }

  lemma {:induction false} TouchedKeepsCommitted(s: Sys, s': Sys, t: nat)
    requires OnlyTouches(s, s', t)
    ensures forall i :: s.CommittedNode(i) ==> s'.CommittedNode(i) && s'.nodes[i] == s.nodes[i]
    ensures forall i :: s.CommittedRun(i) ==> s'.CommittedRun(i) && s'.runs[i] == s.runs[i]
  {
  }

  /** One node per address and SNI, named by the last entry for it in the first batch
      that committed with it. */
  lemma {:induction false} NodesAreNamedOnce(d: Deployment, steps: seq<Step>)
    requires d.Valid() && Exec(d, steps).Some?
    ensures var s, ps := Exec(d, steps).value, Commits(d, steps);
      && (forall i, j :: s.CommittedNode(i) && s.CommittedNode(j) && s.nodes[i].key == s.nodes[j].key ==> i == j)
      && (forall i :: s.CommittedNode(i) ==>
            var first := FirstMention(ps, s.nodes[i].key);
            first.Some? && s.nodes[i].key in BatchKeys(first.value.results)
            && s.nodes[i].info == LastNode(first.value.results, s.nodes[i].key))
  {
    var s, ps := Exec(d, steps).value, Commits(d, steps);
    Serialisable(d, steps);
    forall i | s.CommittedNode(i)
      ensures FirstMention(ps, s.nodes[i].key).Some?
        && s.nodes[i].key in BatchKeys(FirstMention(ps, s.nodes[i].key).value.results)
        && s.nodes[i].info == LastNode(FirstMention(ps, s.nodes[i].key).value.results, s.nodes[i].key)
    {
      ReplayNamesNodesOnce(ps, s.nodes[i].key);
    }
  }

  /** In every reachable state the lookup of node ids covers the whole batch. */
  lemma {:induction false} NodeLookupIsTotal(d: Deployment, steps: seq<Step>, t: nat)
    requires d.Valid() && Exec(d, steps).Some?
    requires t in Exec(d, steps).value.txs && Exec(d, steps).value.txs[t].stage.Adding?
    ensures var s := Exec(d, steps).value;
      && (forall r :: r in s.txs[t].body.results ==> r.node.Key() in s.txs[t].stage.ids)
      && Apply(d, s, AddResults(t)).txs[t].stage.Committing?
  {
    var s := Exec(d, steps).value;
    assert TxOk(d, s, t) by { Serialisable(d, steps); }
    AddResultsTx(d, s, t);
    forall r | r in s.txs[t].body.results ensures r.node.Key() in s.txs[t].stage.ids {
      assert r.node.Key() in BatchKeys(s.txs[t].body.results);
    }
  }

  lemma {:induction false} ExecMore(d: Deployment, steps: seq<Step>, step: Step)
    requires Exec(d, steps).Some? && Enabled(d, Exec(d, steps).value, step)
    ensures Exec(d, steps + [step]) == Some(Apply(d, Exec(d, steps).value, step))
  {
    assert (steps + [step])[..|steps|] == steps;
  }

  /** The lookup of the run id does not protect on its own: for any admitted push, two
      requests can both have passed it. */
  lemma {:induction false} BothPassTheCheck(d: Deployment, r: RunId) returns (steps: seq<Step>)
    requires d.Valid() && r in d.pushes && d.Admits(d.pushes[r])
    ensures Exec(d, steps).Some?
    ensures var s := Exec(d, steps).value;
      0 in s.txs && 1 in s.txs && s.txs[0] == s.txs[1] == Tx(d.pushes[r].body, Inserting)
  {
    var q := d.pushes[r];
    steps := [];
    ExecMore(d, steps, Send(r));
    steps := steps + [Send(r)];
    ExecMore(d, steps, Begin(0, q));
    steps := steps + [Begin(0, q)];
    ExecMore(d, steps, Begin(1, q));
    steps := steps + [Begin(1, q)];
    var s := Exec(d, steps).value;
    assert forall pk :: !s.CommittedRun(pk);
    ExecMore(d, steps, CheckRun(0));
    steps := steps + [CheckRun(0)];
    s := Exec(d, steps).value;
    assert forall pk :: !s.CommittedRun(pk);
    ExecMore(d, steps, CheckRun(1));
    steps := steps + [CheckRun(1)];
  }

  lemma {:induction false} LoserCrashes(d: Deployment, s: Sys, t: nat)
    requires TablesOk(s) && t in s.txs && s.txs[t].stage.Inserting? && s.HasRun(s.txs[t].body.runId)
    ensures Enabled(d, s, InsertRun(t)) && Apply(d, s, InsertRun(t)).txs[t].stage == Decided(Crashed)
  {
  }

  /** The loser of that race cannot insert: once the winner has committed, its insert
      fails at once and it answers with a status that the client retries. */
  lemma {:induction false} LoserIsRetried(d: Deployment, steps: seq<Step>, t: nat)
    requires d.Valid() && Exec(d, steps).Some?
    requires t in Exec(d, steps).value.txs && Exec(d, steps).value.txs[t].stage.Inserting?
    requires Exec(d, steps).value.HasRun(Exec(d, steps).value.txs[t].body.runId)
    ensures Exec(d, steps + [InsertRun(t)]).Some?
    ensures Exec(d, steps + [InsertRun(t)]).value.txs[t].stage == Decided(Crashed)
    ensures Judge(Response(HttpCode(Crashed))) == Transient
  {
    assert TablesOk(Exec(d, steps).value) by { Serialisable(d, steps); }
    LoserCrashes(d, Exec(d, steps).value, t);
    ExecMore(d, steps, InsertRun(t));
  }

  /** A retry after a lost reply never waits: whatever else is running, it can be
      answered at once as a duplicate with the full count. */
  lemma {:induction false} RetryIsAnswered(d: Deployment, steps: seq<Step>, r: RunId, t: nat)
    requires d.Valid() && Exec(d, steps).Some? && r in d.pushes
    requires var s := Exec(d, steps).value;
      s.HasRun(r) && d.pushes[r] in s.requests && t !in s.txs && t !in s.committed
    ensures var more := steps + [Begin(t, d.pushes[r])] + [CheckRun(t)] + [CountStored(t)] + [Answer(t)];
      Exec(d, more).Some?
      && Reply(r, Created(|d.pushes[r].body.results|, true)) in Exec(d, more).value.replies
  {
    var q := d.pushes[r];
    Serialisable(d, steps);
    var s := Exec(d, steps).value;
    var pk :| s.CommittedRun(pk) && s.runs[pk].externalId == r;
    assert q.body.runId == r && d.Admits(q) by { assert CountsOk(d, s); }
    ExecMore(d, steps, Begin(t, q));
    var a := steps + [Begin(t, q)];
    var sa := Exec(d, a).value;
    assert sa.CommittedRun(pk);
    RetryCounts(d, a, t, pk);
    ExecMore(d, a, CheckRun(t));
    var b := a + [CheckRun(t)];
    ExecMore(d, b, CountStored(t));
    var c := b + [CountStored(t)];
    ExecMore(d, c, Answer(t));
  }

  lemma {:induction false} RetryCounts(d: Deployment, steps: seq<Step>, t: nat, pk: nat)
    requires d.Valid() && Exec(d, steps).Some? && Enabled(d, Exec(d, steps).value, CheckRun(t))
    requires var s := Exec(d, steps).value; s.CommittedRun(pk) && s.runs[pk].externalId == s.txs[t].body.runId
    ensures var s := Exec(d, steps).value;
      Apply(d, s, CheckRun(t)) == Stand(s, t, Counting(pk))
      && |RowsOf(s.results, pk)| == |s.txs[t].body.results|
  {
    Serialisable(d, steps);
    RetryFinds(d, Exec(d, steps).value, t, pk);
  }

  lemma {:induction false} RetryFinds(d: Deployment, s: Sys, t: nat, pk: nat)
    requires TablesOk(s) && Enabled(d, s, CheckRun(t)) && TxOk(d, s, t) && CountsOk(d, s)
    requires s.CommittedRun(pk) && s.runs[pk].externalId == s.txs[t].body.runId
    ensures Apply(d, s, CheckRun(t)) == Stand(s, t, Counting(pk))
    ensures |RowsOf(s.results, pk)| == |s.txs[t].body.results|
  {
  }
}
