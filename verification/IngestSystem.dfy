/** nodecheck clients, the network and overlapping probestore transactions, one step at a time.

    Tables follow PostgreSQL: a row carries the transaction that wrote it and is visible to
    another only once that one has committed. A unique index covers every live row, so an
    insert that meets a row of a running transaction has no step until that one ends.
    Messages are kept for ever in a set: reading one twice is duplication, never reading
    it is loss. */
module IngestSystem {
  import opened Base
  import opened Schema
  import opened PushClient

  datatype NodeRow = NodeRow(key: NodeKey, info: NodeInfo, xmin: nat)
  datatype RunRow = RunRow(externalId: RunId, info: RunInfo, xmin: nat)
  datatype ResultRow = ResultRow(nodeId: nat, runPk: nat, m: Measurement)

  /** Where the handler of one request stands. */
  datatype Stage =
    | Checking
    | Counting(existing: nat)
    | Inserting
    | Upserting(runPk: nat, todo: seq<NodeIn>)
    | Adding(runPk: nat, ids: map<NodeKey, nat>)
    | Committing(runPk: nat, rows: seq<ResultRow>)
    | Decided(status: Status)

  datatype Status =
    | Created(stored: nat, duplicate: bool)
    | Rejected
    | Crashed

  function HttpCode(s: Status): int {
    match s
    case Created(_, _) => 201
    case Rejected => 401
    case Crashed => 500
  }

  datatype Tx = Tx(body: RunIn, stage: Stage)
  datatype Push = Push(token: string, body: RunIn)
  datatype Reply = Reply(runId: RunId, status: Status)

  /** The server's token, and what each client posts under its own fresh run id. */
  datatype Deployment = Deployment(token: string, pushes: map<RunId, Push>) {
    ghost predicate Valid() {
      forall r :: r in pushes ==> pushes[r].body.runId == r
    }

    predicate Admits(q: Push) { q.token == token && ValidRun(q.body) }
  }

  datatype Sys = Sys(
    nodes: map<nat, NodeRow>,
    runs: map<nat, RunRow>,
    results: seq<ResultRow>,
    nextNode: nat,
    nextRun: nat,
    committed: set<nat>,
    txs: map<nat, Tx>,
    clients: map<RunId, Client>,
    requests: set<Push>,
    replies: set<Reply>)
  {
    predicate CommittedNode(id: nat) { id in nodes && nodes[id].xmin in committed }
    predicate CommittedRun(pk: nat) { pk in runs && runs[pk].xmin in committed }
    ghost predicate HasNode(k: NodeKey) { exists id :: CommittedNode(id) && nodes[id].key == k }
    ghost predicate HasRun(r: RunId) { exists pk :: CommittedRun(pk) && runs[pk].externalId == r }

    /** Visible to transaction `t`: committed, or written by `t` itself. */
    predicate SeesNode(t: nat, id: nat) { id in nodes && (nodes[id].xmin in committed || nodes[id].xmin == t) }
    ghost predicate Sees(t: nat, k: NodeKey) { exists id :: SeesNode(t, id) && nodes[id].key == k }
  }

  ghost function Init(d: Deployment): Sys {
    Sys(map[], map[], [], 0, 0, {}, map[], map r | r in d.pushes :: Posting(0), {}, {})
  }

  /** The rows stored under one run, in order. */
  function RowsOf(rows: seq<ResultRow>, pk: nat): seq<ResultRow> {
    if |rows| == 0 then []
    else RowsOf(rows[..|rows| - 1], pk) + if rows[|rows| - 1].runPk == pk then [rows[|rows| - 1]] else []
  }

  /** A row of the multi-row insert, and a Python dictionary as a list of its items. */
  datatype NodeIn = NodeIn(key: NodeKey, info: NodeInfo)

  /** Assignment to a key keeps the place of an earlier assignment to it. */
  function Put(items: seq<NodeIn>, item: NodeIn): seq<NodeIn> {
    if |items| == 0 then [item]
    else if items[0].key == item.key then [item] + items[1..]
    else [items[0]] + Put(items[1..], item)
  }

  /** The dictionary `seen` of the handler. */
  function Seen(rs: seq<ResultIn>): seq<NodeIn> {
    if |rs| == 0 then []
    else
      var n := rs[|rs| - 1].node;
      Put(Seen(rs[..|rs| - 1]), NodeIn(n.Key(), NodeInfo(n.name, n.provider)))
  }

  datatype Step =
    | Send(r: RunId)
    | Receive(reply: Reply)
    | LoseContact(r: RunId)
    | CancelWait(r: RunId)
    | Refuse(q: Push)
    | Begin(t: nat, q: Push)
    | CheckRun(t: nat)
    | CountStored(t: nat)
    | InsertRun(t: nat)
    | UpsertNode(t: nat)
    | ReadNodes(t: nat)
    | AddResults(t: nat)
    | Commit(t: nat)
    | Abort(t: nat)
    | BreakReply(t: nat)
    | Answer(t: nat)

  predicate At(s: Sys, t: nat) { t in s.txs }

  ghost predicate Enabled(d: Deployment, s: Sys, step: Step) {
    match step
    case Send(r) => r in s.clients && r in d.pushes && s.clients[r].Posting?
    case Receive(m) => m in s.replies && m.runId in s.clients && s.clients[m.runId].Awaiting?
    case LoseContact(r) => r in s.clients && s.clients[r].Awaiting?
    case CancelWait(r) => r in s.clients && s.clients[r].Posting? && s.clients[r].attempt > 0
    case Refuse(q) => q in s.requests && !d.Admits(q)
    case Begin(t, q) => q in s.requests && d.Admits(q) && t !in s.txs && t !in s.committed
    case CheckRun(t) => At(s, t) && s.txs[t].stage.Checking?
    case CountStored(t) => At(s, t) && s.txs[t].stage.Counting?
    case InsertRun(t) =>
      && At(s, t) && s.txs[t].stage.Inserting?
      // wait while a running transaction holds the same external id
      && forall pk :: pk in s.runs && s.runs[pk].externalId == s.txs[t].body.runId ==> s.CommittedRun(pk)
    case UpsertNode(t) =>
      && At(s, t) && s.txs[t].stage.Upserting? && |s.txs[t].stage.todo| > 0
      // wait while another running transaction holds the same (addr, sni)
      && forall id :: id in s.nodes && s.nodes[id].key == s.txs[t].stage.todo[0].key ==> s.SeesNode(t, id)
    case ReadNodes(t) => At(s, t) && s.txs[t].stage.Upserting? && |s.txs[t].stage.todo| == 0
    case AddResults(t) => At(s, t) && s.txs[t].stage.Adding?
    case Commit(t) => At(s, t) && s.txs[t].stage.Committing?
    case Abort(t) => At(s, t) && !s.txs[t].stage.Decided?
    case BreakReply(t) => At(s, t) && s.txs[t].stage.Decided?
    case Answer(t) => At(s, t) && s.txs[t].stage.Decided?
  }

  function Stand(s: Sys, t: nat, stage: Stage): Sys
    requires t in s.txs
  {
    s.(txs := s.txs[t := s.txs[t].(stage := stage)])
  }

  /** Rollback: what the transaction wrote is gone, and the request ends in a 500. */
  function RolledBack(s: Sys, t: nat): Sys
    requires t in s.txs
  {
    var s' := s.(
      nodes := map id | id in s.nodes && s.nodes[id].xmin != t :: s.nodes[id],
      runs := map pk | pk in s.runs && s.runs[pk].xmin != t :: s.runs[pk]);
    Stand(s', t, Decided(Crashed))
  }

  ghost function Apply(d: Deployment, s: Sys, step: Step): Sys
    requires Enabled(d, s, step)
  {
    match step
    case Send(r) =>
      s.(clients := s.clients[r := Awaiting(s.clients[r].attempt)], requests := s.requests + {d.pushes[r]})
    case Receive(m) =>
      var v := Judge(Response(HttpCode(m.status)));
      s.(clients := s.clients[m.runId := AfterAttempt(s.clients[m.runId].attempt, v)])
    case LoseContact(r) =>
      s.(clients := s.clients[r := AfterAttempt(s.clients[r].attempt, Judge(NoResponse))])
    case CancelWait(r) => s.(clients := s.clients[r := Cancelled])
    case Refuse(q) => s.(replies := s.replies + {Reply(q.body.runId, Status.Rejected)})
    case Begin(t, q) => s.(txs := s.txs[t := Tx(q.body, Checking)])
    case CheckRun(t) =>
      if s.HasRun(s.txs[t].body.runId) then
        var pk :| s.CommittedRun(pk) && s.runs[pk].externalId == s.txs[t].body.runId;
        Stand(s, t, Counting(pk))
      else Stand(s, t, Inserting)
    case CountStored(t) =>
      Stand(s, t, Decided(Created(|RowsOf(s.results, s.txs[t].stage.existing)|, true)))
    case InsertRun(t) => ApplyInsertRun(s, t)
    case UpsertNode(t) => ApplyUpsertNode(s, t)
    case ReadNodes(t) =>
      Stand(s, t, Adding(s.txs[t].stage.runPk, NodeIds(s, t, BatchKeys(s.txs[t].body.results))))
    case AddResults(t) => ApplyAddResults(s, t)
    case Commit(t) =>
      var s' := s.(committed := s.committed + {t}, results := s.results + s.txs[t].stage.rows);
      Stand(s', t, Decided(Created(|s.txs[t].body.results|, false)))
    case Abort(t) => RolledBack(s, t)
    case BreakReply(t) => Stand(s, t, Decided(Crashed))
    case Answer(t) =>
      s.(replies := s.replies + {Reply(s.txs[t].body.runId, s.txs[t].stage.status)}, txs := s.txs - {t})
  }

  /** The flush of the new run: a committed run of the same external id violates the
      unique constraint, and the transaction fails. */
  ghost function ApplyInsertRun(s: Sys, t: nat): Sys
    requires At(s, t)
  {
    var b := s.txs[t].body;
    if exists pk :: pk in s.runs && s.runs[pk].externalId == b.runId then RolledBack(s, t)
    else
      var s' := s.(runs := s.runs[s.nextRun := RunRow(b.runId, Info(b), t)], nextRun := s.nextRun + 1);
      Stand(s', t, Upserting(s.nextRun, Seen(b.results)))
  }

  /** One row of the multi-row INSERT ... ON CONFLICT DO NOTHING. */
  ghost function ApplyUpsertNode(s: Sys, t: nat): Sys
    requires At(s, t) && s.txs[t].stage.Upserting? && |s.txs[t].stage.todo| > 0
  {
    var item := s.txs[t].stage.todo[0];
    var s' :=
      if exists id :: id in s.nodes && s.nodes[id].key == item.key then s
      else s.(nodes := s.nodes[s.nextNode := NodeRow(item.key, item.info, t)], nextNode := s.nextNode + 1);
    Stand(s', t, s.txs[t].stage.(todo := s.txs[t].stage.todo[1..]))
  }

  /** The read back: a new statement, so it sees all that has committed by now. */
  ghost function NodeIds(s: Sys, t: nat, keys: set<NodeKey>): map<NodeKey, nat> {
    map k | k in keys && s.Sees(t, k) :: IdOf(s, t, k)
  }

  ghost function IdOf(s: Sys, t: nat, k: NodeKey): (id: nat)
    requires s.Sees(t, k)
    ensures s.SeesNode(t, id) && s.nodes[id].key == k
  {
    var id :| s.SeesNode(t, id) && s.nodes[id].key == k;
    id
  }

  /** A key that the read back did not return is a KeyError, and the request crashes. */
  ghost function ApplyAddResults(s: Sys, t: nat): Sys
    requires At(s, t) && s.txs[t].stage.Adding?
  {
    var b, st := s.txs[t].body, s.txs[t].stage;
    if forall i :: 0 <= i < |b.results| ==> b.results[i].node.Key() in st.ids then
      Stand(s, t, Committing(st.runPk, Rows(b.results, st.ids, st.runPk)))
    else RolledBack(s, t)
  }

  function Rows(rs: seq<ResultIn>, ids: map<NodeKey, nat>, pk: nat): seq<ResultRow>
    requires forall i :: 0 <= i < |rs| ==> rs[i].node.Key() in ids
  {
    seq(|rs|, i requires 0 <= i < |rs| => ResultRow(ids[rs[i].node.Key()], pk, rs[i].m))
  }

  /** The state after a list of steps, if each was enabled when its turn came. */
  ghost function Exec(d: Deployment, steps: seq<Step>): Option<Sys> {
    if |steps| == 0 then Some(Init(d))
    else
      match Exec(d, steps[..|steps| - 1])
      case None => None
      case Some(s) =>
        var step := steps[|steps| - 1];
        if Enabled(d, s, step) then Some(Apply(d, s, step)) else None
  }

  /** The batches that committed, in commit order. */
  ghost function Commits(d: Deployment, steps: seq<Step>): seq<RunIn>
    requires Exec(d, steps).Some?
  {
    if |steps| == 0 then []
    else
      var before := Commits(d, steps[..|steps| - 1]);
      var s := Exec(d, steps[..|steps| - 1]).value;
      match steps[|steps| - 1]
      case Commit(t) => before + [s.txs[t].body]
      case _ => before
  }
}
