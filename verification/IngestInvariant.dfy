/** What every step of the ingest system keeps. */
module IngestInvariant {
  import opened Schema
  import opened Ledger
  import opened PushClient
  import opened IngestSystem

  // ---- the dictionary of the handler ----

  predicate DistinctItems(items: seq<NodeIn>) {
    forall i, j :: 0 <= i < j < |items| ==> items[i].key != items[j].key
  }

  lemma {:induction false} PutReplaces(items: seq<NodeIn>, item: NodeIn)
    requires DistinctItems(items)
    ensures var r := Put(items, item);
      && DistinctItems(r)
      && item in r
      && (forall x :: x in r <==> x == item || (x in items && x.key != item.key))
  {
    if |items| > 0 {
      var tail := Put(items[1..], item);
      assert items == [items[0]] + items[1..];
      if items[0].key != item.key {
        PutReplaces(items[1..], item);
        forall j | 0 <= j < |tail| ensures tail[j].key != items[0].key {
          assert tail[j] in tail;
        }
      } else {
        forall x | x in items[1..] ensures x.key != item.key {
          var j :| 0 <= j < |items[1..]| && items[1..][j] == x;
          assert items[j + 1] == x;
        }
      }
    }
  }

  /** The insert names each key of the batch once, with the last entry for it. */
  lemma {:induction false} SeenIsLastPerKey(rs: seq<ResultIn>)
    ensures DistinctItems(Seen(rs))
    ensures forall x :: x in Seen(rs) ==> x.key in BatchKeys(rs) && x.info == LastNode(rs, x.key)
    ensures forall k :: k in BatchKeys(rs) ==> NodeIn(k, LastNode(rs, k)) in Seen(rs)
  {
    if |rs| > 0 {
      var n := |rs| - 1;
      SeenIsLastPerKey(rs[..n]);
      assert rs == rs[..n] + [rs[n]];
      assert BatchKeys(rs) == BatchKeys(rs[..n]) + {rs[n].node.Key()};
      PutReplaces(Seen(rs[..n]), NodeIn(rs[n].node.Key(), NodeInfo(rs[n].node.name, rs[n].node.provider)));
    }
  }

  // ---- the invariant ----

  /** The unique indexes, over all live rows, and what their writers are. */
  ghost predicate TablesOk(s: Sys) {
    && (forall i, j :: i in s.nodes && j in s.nodes && s.nodes[i].key == s.nodes[j].key ==> i == j)
    && (forall i, j :: i in s.runs && j in s.runs && s.runs[i].externalId == s.runs[j].externalId ==> i == j)
    && (forall i :: i in s.nodes ==> i < s.nextNode && (s.nodes[i].xmin in s.committed || s.nodes[i].xmin in s.txs))
    && (forall i :: i in s.runs ==> i < s.nextRun && (s.runs[i].xmin in s.committed || s.runs[i].xmin in s.txs))
  }

  ghost predicate WroteNothing(s: Sys, t: nat) {
    && t !in s.committed
    && (forall i :: i in s.nodes ==> s.nodes[i].xmin != t)
    && (forall i :: i in s.runs ==> s.runs[i].xmin != t)
  }

  /** The transaction has inserted its run, and nodes only for keys of its batch. */
  ghost predicate WroteRun(s: Sys, t: nat, b: RunIn, pk: nat) {
    && t !in s.committed
    && pk in s.runs && s.runs[pk] == RunRow(b.runId, Info(b), t)
    && (forall i :: i in s.runs && s.runs[i].xmin == t ==> i == pk)
    && (forall i :: i in s.nodes && s.nodes[i].xmin == t ==>
          s.nodes[i].key in BatchKeys(b.results) && s.nodes[i].info == LastNode(b.results, s.nodes[i].key))
  }

  ghost predicate SeesAllBut(s: Sys, t: nat, b: RunIn, todo: seq<NodeIn>) {
    forall k :: k in BatchKeys(b.results) ==> NodeIn(k, LastNode(b.results, k)) in todo || s.Sees(t, k)
  }

  ghost predicate RowsMatch(s: Sys, t: nat, b: RunIn, pk: nat, rows: seq<ResultRow>) {
    && |rows| == |b.results|
    && forall i :: 0 <= i < |rows| ==>
         && rows[i].runPk == pk && rows[i].m == b.results[i].m
         && s.SeesNode(t, rows[i].nodeId) && s.nodes[rows[i].nodeId].key == b.results[i].node.Key()
  }

  ghost predicate TxOk(d: Deployment, s: Sys, t: nat)
    requires t in s.txs
  {
    var b := s.txs[t].body;
    && b.runId in d.pushes && d.pushes[b.runId].body == b && d.Admits(d.pushes[b.runId])
    && match s.txs[t].stage
       case Checking => WroteNothing(s, t)
       case Counting(pk) => WroteNothing(s, t) && s.CommittedRun(pk) && s.runs[pk].externalId == b.runId
       case Inserting => WroteNothing(s, t)
       case Upserting(pk, todo) =>
         && WroteRun(s, t, b, pk) && SeesAllBut(s, t, b, todo)
         && (forall x :: x in todo ==> x.key in BatchKeys(b.results) && x.info == LastNode(b.results, x.key))
       case Adding(pk, ids) =>
         && WroteRun(s, t, b, pk) && ids.Keys == BatchKeys(b.results)
         && (forall k :: k in ids ==> s.SeesNode(t, ids[k]) && s.nodes[ids[k]].key == k)
       case Committing(pk, rows) => WroteRun(s, t, b, pk) && RowsMatch(s, t, b, pk, rows)
       case Decided(status) =>
         && (t in s.committed || WroteNothing(s, t))
         && !status.Rejected?
         && (status.Created? ==> s.HasRun(b.runId) && status.stored == |b.results|)
  }

  ghost predicate TxsOk(d: Deployment, s: Sys) {
    forall t :: t in s.txs ==> TxOk(d, s, t)
  }

  /** Every request on the wire is a client's own; a created reply comes from a committed
      run and reports its whole size; a rejection is of a push that is never admitted. */
  ghost predicate MessagesOk(d: Deployment, s: Sys) {
    && (forall q :: q in s.requests ==> q.body.runId in d.pushes && d.pushes[q.body.runId] == q)
    && (forall m :: m in s.replies ==> m.runId in d.pushes)
    && (forall m :: m in s.replies && m.status.Created? ==>
          s.HasRun(m.runId) && m.status.stored == |d.pushes[m.runId].body.results|)
    && (forall m :: m in s.replies && m.status.Rejected? ==> !d.Admits(d.pushes[m.runId]))
  }

  ghost predicate ClientsOk(d: Deployment, s: Sys) {
    && s.clients.Keys == d.pushes.Keys
    && (forall r :: r in s.clients && s.clients[r].Stored? ==> s.HasRun(r))
    && (forall r :: r in s.clients && s.clients[r].Refused? ==> !d.Admits(d.pushes[r]))
    && (forall r :: r in s.clients && (s.clients[r].Posting? || s.clients[r].Awaiting?) ==>
          s.clients[r].attempt < MAX_ATTEMPTS)
  }

  /** The committed rows are the ledger, read through the row ids. */
  ghost predicate NodesRepresent(s: Sys, l: Ledger) {
    && (forall i :: s.CommittedNode(i) ==> s.nodes[i].key in l.nodes && l.nodes[s.nodes[i].key] == s.nodes[i].info)
    && (forall k :: k in l.nodes ==> s.HasNode(k))
  }

  ghost predicate RunsRepresent(s: Sys, l: Ledger) {
    && (forall i :: s.CommittedRun(i) ==>
          s.runs[i].externalId in l.runs && l.runs[s.runs[i].externalId] == s.runs[i].info)
    && (forall r :: r in l.runs ==> s.HasRun(r))
  }

  predicate RowRepresents(s: Sys, row: ResultRow, e: Entry) {
    && s.CommittedRun(row.runPk) && s.runs[row.runPk].externalId == e.runId
    && s.CommittedNode(row.nodeId) && s.nodes[row.nodeId].key == e.key
    && row.m == e.m
  }

  ghost predicate ResultsRepresent(s: Sys, l: Ledger) {
    && |s.results| == |l.entries|
    && forall i :: 0 <= i < |s.results| ==> RowRepresents(s, s.results[i], l.entries[i])
  }

  ghost predicate Represents(s: Sys, l: Ledger) {
    NodesRepresent(s, l) && RunsRepresent(s, l) && ResultsRepresent(s, l)
  }

  /** Each committed run holds as many results as its client posted. */
  ghost predicate CountsOk(d: Deployment, s: Sys) {
    forall pk :: s.CommittedRun(pk) ==>
      && s.runs[pk].externalId in d.pushes
      && d.Admits(d.pushes[s.runs[pk].externalId])
      && |RowsOf(s.results, pk)| == |d.pushes[s.runs[pk].externalId].body.results|
  }

  ghost predicate Inv(d: Deployment, s: Sys) {
    TablesOk(s) && TxsOk(d, s) && MessagesOk(d, s) && ClientsOk(d, s) && CountsOk(d, s)
  }

  // ---- counting ----

  lemma {:induction false} RowsOfAppend(a: seq<ResultRow>, b: seq<ResultRow>, pk: nat)
    ensures RowsOf(a + b, pk) == RowsOf(a, pk) + RowsOf(b, pk)
  {
    if |b| == 0 {
      assert a + b == a;
    } else {
      var n := |b| - 1;
      RowsOfAppend(a, b[..n], pk);
      assert (a + b)[..|a + b| - 1] == a + b[..n];
    }
  }

  lemma {:induction false} RowsOfUniform(rows: seq<ResultRow>, owner: nat, pk: nat)
    requires forall i :: 0 <= i < |rows| ==> rows[i].runPk == owner
    ensures RowsOf(rows, pk) == if pk == owner then rows else []
  {
    if |rows| > 0 {
      RowsOfUniform(rows[..|rows| - 1], owner, pk);
      assert rows == rows[..|rows| - 1] + [rows[|rows| - 1]];
    }
  }

  lemma {:induction false} RowsOfAbsent(rows: seq<ResultRow>, pk: nat)
    requires forall i :: 0 <= i < |rows| ==> rows[i].runPk != pk
    ensures RowsOf(rows, pk) == []
  {
    if |rows| > 0 {
      RowsOfAbsent(rows[..|rows| - 1], pk);
    }
  }

  // ---- framing: what one transaction's step leaves to the others ----

  /** From `s` to `s'` only rows that `t` wrote come or go, and none that is committed. */
  ghost predicate OnlyTouches(s: Sys, s': Sys, t: nat) {
    && (forall i :: i in s.nodes && (s.nodes[i].xmin != t || t in s.committed) ==>
          i in s'.nodes && s'.nodes[i] == s.nodes[i])
    && (forall i :: i in s'.nodes && (s'.nodes[i].xmin != t || t in s.committed) ==>
          i in s.nodes && s'.nodes[i] == s.nodes[i])
    && (forall i :: i in s.runs && (s.runs[i].xmin != t || t in s.committed) ==>
          i in s'.runs && s'.runs[i] == s.runs[i])
    && (forall i :: i in s'.runs && (s'.runs[i].xmin != t || t in s.committed) ==>
          i in s.runs && s'.runs[i] == s.runs[i])
    && s.committed <= s'.committed <= s.committed + {t}
    && (forall u :: u != t ==> (u in s.txs <==> u in s'.txs))
    && (forall u :: u in s.txs && u != t ==> u in s'.txs && s'.txs[u] == s.txs[u])
  }

  lemma {:induction false} HasRunKept(s: Sys, s': Sys, t: nat, r: RunId)
    requires OnlyTouches(s, s', t)
    ensures s.HasRun(r) ==> s'.HasRun(r)
  {
    if s.HasRun(r) {
      var pk :| s.CommittedRun(pk) && s.runs[pk].externalId == r;
      assert s'.CommittedRun(pk);
    }
  }

  lemma {:induction false} SeesKept(s: Sys, s': Sys, t: nat, u: nat, k: NodeKey)
    requires OnlyTouches(s, s', t) && u != t
    ensures s.Sees(u, k) ==> s'.Sees(u, k)
  {
    if s.Sees(u, k) {
      var id :| s.SeesNode(u, id) && s.nodes[id].key == k;
      assert s'.SeesNode(u, id);
    }
  }

  lemma {:induction false} WritingsKept(s: Sys, s': Sys, t: nat, u: nat, b: RunIn, pk: nat)
    requires OnlyTouches(s, s', t) && u != t
    ensures WroteNothing(s, u) ==> WroteNothing(s', u)
    ensures WroteRun(s, u, b, pk) ==> WroteRun(s', u, b, pk)
  {
  }

  lemma {:induction false} RowsMatchKept(s: Sys, s': Sys, t: nat, u: nat, b: RunIn, pk: nat, rows: seq<ResultRow>)
    requires OnlyTouches(s, s', t) && u != t && RowsMatch(s, u, b, pk, rows)
    ensures RowsMatch(s', u, b, pk, rows)
  {
  }

  lemma {:induction false} SeesAllButKept(s: Sys, s': Sys, t: nat, u: nat, b: RunIn, todo: seq<NodeIn>)
    requires OnlyTouches(s, s', t) && u != t && SeesAllBut(s, u, b, todo)
    ensures SeesAllBut(s', u, b, todo)
  {
    forall k | s.Sees(u, k) ensures s'.Sees(u, k) {
      SeesKept(s, s', t, u, k);
    }
  }

  lemma {:induction false} OtherTxOk(d: Deployment, s: Sys, s': Sys, t: nat, u: nat)
    requires OnlyTouches(s, s', t) && u != t && u in s.txs && TxOk(d, s, u)
    ensures TxOk(d, s', u)
  {
    var b := s.txs[u].body;
    match s.txs[u].stage
    case Upserting(pk, todo) => WritingsKept(s, s', t, u, b, pk); SeesAllButKept(s, s', t, u, b, todo);
    case Adding(pk, ids) => WritingsKept(s, s', t, u, b, pk);
    case Committing(pk, rows) => WritingsKept(s, s', t, u, b, pk); RowsMatchKept(s, s', t, u, b, pk, rows);
    case _ => WritingsKept(s, s', t, u, b, 0); HasRunKept(s, s', t, b.runId);
  }

  /** A step of `t` keeps the invariant once its own part is shown. */
  lemma {:induction false} ServerStep(d: Deployment, s: Sys, s': Sys, t: nat)
    requires Inv(d, s) && OnlyTouches(s, s', t)
    requires s'.clients == s.clients && s'.requests == s.requests && s'.replies == s.replies
    requires TablesOk(s') && (t in s'.txs ==> TxOk(d, s', t)) && CountsOk(d, s')
    ensures Inv(d, s')
  {
    forall u | u in s'.txs ensures TxOk(d, s', u) {
      if u != t { OtherTxOk(d, s, s', t, u); }
    }
    forall r ensures s.HasRun(r) ==> s'.HasRun(r) {
      HasRunKept(s, s', t, r);
    }
  }

  lemma {:induction false} CommittedRowsKept(s: Sys, s': Sys, t: nat)
    requires OnlyTouches(s, s', t) && s'.committed == s.committed
    ensures forall i :: s.CommittedNode(i) <==> s'.CommittedNode(i)
    ensures forall i :: s.CommittedRun(i) <==> s'.CommittedRun(i)
    ensures forall i :: s.CommittedNode(i) ==> s'.nodes[i] == s.nodes[i]
    ensures forall i :: s.CommittedRun(i) ==> s'.runs[i] == s.runs[i]
  {
  }

  lemma {:induction false} HasNodeKept(s: Sys, s': Sys, t: nat, k: NodeKey)
    requires OnlyTouches(s, s', t)
    ensures s.HasNode(k) ==> s'.HasNode(k)
  {
    if s.HasNode(k) {
      var i :| s.CommittedNode(i) && s.nodes[i].key == k;
      assert s'.CommittedNode(i);
    }
  }

  /** A step that commits nothing shows the same ledger. */
  lemma {:induction false} LedgerKept(s: Sys, s': Sys, t: nat, l: Ledger)
    requires OnlyTouches(s, s', t) && s'.committed == s.committed && s'.results == s.results
    requires Represents(s, l)
    ensures Represents(s', l)
  {
    CommittedRowsKept(s, s', t);
    assert NodesRepresent(s', l) by {
      forall k ensures s.HasNode(k) ==> s'.HasNode(k) { HasNodeKept(s, s', t, k); }
    }
    assert RunsRepresent(s', l) by {
      forall r ensures s.HasRun(r) ==> s'.HasRun(r) { HasRunKept(s, s', t, r); }
    }
    forall i | 0 <= i < |s'.results| ensures RowRepresents(s', s'.results[i], l.entries[i]) {
      assert RowRepresents(s, s.results[i], l.entries[i]);
    }
  }

  lemma {:induction false} CountsKept(d: Deployment, s: Sys, s': Sys, t: nat)
    requires OnlyTouches(s, s', t) && s'.committed == s.committed && s'.results == s.results
    requires CountsOk(d, s)
    ensures CountsOk(d, s')
  {
    CommittedRowsKept(s, s', t);
  }

  /** A step of `t` that commits nothing: what its own part needs, and all is kept. */
  lemma {:induction false} QuietStep(d: Deployment, s: Sys, s': Sys, t: nat, l: Ledger)
    requires Inv(d, s) && Represents(s, l) && OnlyTouches(s, s', t)
    requires s' == s.(nodes := s'.nodes, runs := s'.runs, nextNode := s'.nextNode, nextRun := s'.nextRun, txs := s'.txs)
    requires TablesOk(s') && (t in s'.txs ==> TxOk(d, s', t))
    ensures Inv(d, s') && Represents(s', l)
  {
    LedgerKept(s, s', t, l);
    CountsKept(d, s, s', t);
    ServerStep(d, s, s', t);
  }

  /** A change of stage only. */
  lemma {:induction false} StandKeeps(d: Deployment, s: Sys, t: nat, stage: Stage, l: Ledger)
    requires Inv(d, s) && t in s.txs && Represents(s, l)
    requires TxOk(d, Stand(s, t, stage), t)
    ensures Inv(d, Stand(s, t, stage)) && Represents(Stand(s, t, stage), l)
  {
    StandTouches(s, t, stage);
    QuietStep(d, s, Stand(s, t, stage), t, l);
  }

  lemma {:induction false} StandTouches(s: Sys, t: nat, stage: Stage)
    requires TablesOk(s) && t in s.txs
    ensures TablesOk(Stand(s, t, stage)) && OnlyTouches(s, Stand(s, t, stage), t)
  {
  }

  lemma {:induction false} RollbackTouches(s: Sys, t: nat)
    requires t in s.txs && t !in s.committed
    ensures OnlyTouches(s, RolledBack(s, t), t)
  {
  }

  lemma {:induction false} RollbackTables(s: Sys, t: nat)
    requires t in s.txs && TablesOk(s)
    ensures TablesOk(RolledBack(s, t))
  {
  }

  lemma {:induction false} RollbackTx(d: Deployment, s: Sys, t: nat)
    requires t in s.txs && t !in s.committed && TxOk(d, s, t)
    ensures TxOk(d, RolledBack(s, t), t)
  {
  }

  lemma {:induction false} RunningIsUncommitted(d: Deployment, s: Sys, t: nat)
    requires t in s.txs && TxOk(d, s, t) && !s.txs[t].stage.Decided?
    ensures t !in s.committed
  {
  }

  lemma {:induction false} RollbackKeeps(d: Deployment, s: Sys, t: nat, l: Ledger)
    requires Inv(d, s) && t in s.txs && !s.txs[t].stage.Decided? && Represents(s, l)
    ensures Inv(d, RolledBack(s, t)) && Represents(RolledBack(s, t), l)
  {
    var s' := RolledBack(s, t);
    RunningIsUncommitted(d, s, t);
    RollbackTouches(s, t);
    RollbackTables(s, t);
    RollbackTx(d, s, t);
    QuietStep(d, s, s', t, l);
  }

  // ---- the steps of a transaction ----

  lemma {:induction false} CheckRunKeeps(d: Deployment, s: Sys, t: nat, l: Ledger)
    requires Inv(d, s) && Represents(s, l) && Enabled(d, s, CheckRun(t))
    ensures var s' := Apply(d, s, CheckRun(t)); Inv(d, s') && Represents(s', l)
  {
    var stage := Apply(d, s, CheckRun(t)).txs[t].stage;
    StandKeeps(d, s, t, stage, l);
  }

  lemma {:induction false} CountStoredKeeps(d: Deployment, s: Sys, t: nat, l: Ledger)
    requires Inv(d, s) && Represents(s, l) && Enabled(d, s, CountStored(t))
    ensures var s' := Apply(d, s, CountStored(t)); Inv(d, s') && Represents(s', l)
  {
    CountStoredTx(d, s, t);
    StandKeeps(d, s, t, Apply(d, s, CountStored(t)).txs[t].stage, l);
  }

  /** The count of the rows under the run found is the size of the batch. */
  lemma {:induction false} CountStoredTx(d: Deployment, s: Sys, t: nat)
    requires Enabled(d, s, CountStored(t)) && TxOk(d, s, t) && CountsOk(d, s)
    ensures var s' := Apply(d, s, CountStored(t)); s' == Stand(s, t, s'.txs[t].stage) && TxOk(d, s', t)
  {
    var s', pk := Apply(d, s, CountStored(t)), s.txs[t].stage.existing;
    assert s'.CommittedRun(pk) && s'.runs[pk] == s.runs[pk];
  }

  lemma {:induction false} InsertRunTables(s: Sys, t: nat)
    requires TablesOk(s) && t in s.txs && t !in s.committed
    requires !exists pk :: pk in s.runs && s.runs[pk].externalId == s.txs[t].body.runId
    ensures TablesOk(ApplyInsertRun(s, t)) && OnlyTouches(s, ApplyInsertRun(s, t), t)
  {
    assert s.nextRun !in s.runs;
  }

  lemma {:induction false} InsertRunTx(d: Deployment, s: Sys, t: nat)
    requires TablesOk(s) && t in s.txs && TxOk(d, s, t) && s.txs[t].stage.Inserting?
    requires !exists pk :: pk in s.runs && s.runs[pk].externalId == s.txs[t].body.runId
    ensures TxOk(d, ApplyInsertRun(s, t), t)
  {
    SeenIsLastPerKey(s.txs[t].body.results);
  }

  lemma {:induction false} InsertRunKeeps(d: Deployment, s: Sys, t: nat, l: Ledger)
    requires Inv(d, s) && Represents(s, l) && Enabled(d, s, InsertRun(t))
    ensures var s' := Apply(d, s, InsertRun(t)); Inv(d, s') && Represents(s', l)
  {
    if exists pk :: pk in s.runs && s.runs[pk].externalId == s.txs[t].body.runId {
      RollbackKeeps(d, s, t, l);
    } else {
      InsertedKeeps(d, s, t, l);
    }
  }

  lemma {:induction false} InsertedKeeps(d: Deployment, s: Sys, t: nat, l: Ledger)
    requires Inv(d, s) && Represents(s, l) && t in s.txs && s.txs[t].stage.Inserting?
    requires !exists pk :: pk in s.runs && s.runs[pk].externalId == s.txs[t].body.runId
    ensures Inv(d, ApplyInsertRun(s, t)) && Represents(ApplyInsertRun(s, t), l)
  {
    RunningIsUncommitted(d, s, t);
    InsertRunTables(s, t);
    InsertRunTx(d, s, t);
    QuietStep(d, s, ApplyInsertRun(s, t), t, l);
  }

  lemma {:induction false} UpsertNodeTables(s: Sys, t: nat)
    requires TablesOk(s) && t in s.txs && t !in s.committed
    requires s.txs[t].stage.Upserting? && |s.txs[t].stage.todo| > 0
    ensures TablesOk(ApplyUpsertNode(s, t))
  {
    assert s.nextNode !in s.nodes;
  }

  lemma {:induction false} UpsertNodeTouches(s: Sys, t: nat)
    requires TablesOk(s) && t in s.txs && t !in s.committed
    requires s.txs[t].stage.Upserting? && |s.txs[t].stage.todo| > 0
    ensures OnlyTouches(s, ApplyUpsertNode(s, t), t)
    ensures forall i :: i in s.nodes ==>
      i in ApplyUpsertNode(s, t).nodes && ApplyUpsertNode(s, t).nodes[i] == s.nodes[i]
  {
    assert s.nextNode !in s.nodes;
  }

  /** After the row the key is visible, whether inserted now or left as it was. */
  lemma {:induction false} UpsertedKeyIsSeen(s: Sys, t: nat)
    requires TablesOk(s) && t in s.txs
    requires s.txs[t].stage.Upserting? && |s.txs[t].stage.todo| > 0
    requires forall id :: id in s.nodes && s.nodes[id].key == s.txs[t].stage.todo[0].key ==> s.SeesNode(t, id)
    ensures ApplyUpsertNode(s, t).Sees(t, s.txs[t].stage.todo[0].key)
  {
    var s', k := ApplyUpsertNode(s, t), s.txs[t].stage.todo[0].key;
    if exists id :: id in s.nodes && s.nodes[id].key == k {
      var id :| id in s.nodes && s.nodes[id].key == k;
      assert s'.SeesNode(t, id) && s'.nodes[id].key == k;
    } else {
      assert s'.SeesNode(t, s.nextNode) && s'.nodes[s.nextNode].key == k;
    }
  }

  lemma {:induction false} UpsertedSeesRest(s: Sys, t: nat)
    requires TablesOk(s) && t in s.txs && t !in s.committed
    requires s.txs[t].stage.Upserting? && |s.txs[t].stage.todo| > 0
    requires forall id :: id in s.nodes && s.nodes[id].key == s.txs[t].stage.todo[0].key ==> s.SeesNode(t, id)
    requires SeesAllBut(s, t, s.txs[t].body, s.txs[t].stage.todo)
    ensures SeesAllBut(ApplyUpsertNode(s, t), t, s.txs[t].body, s.txs[t].stage.todo[1..])
  {
    var s', b, todo := ApplyUpsertNode(s, t), s.txs[t].body, s.txs[t].stage.todo;
    UpsertNodeTouches(s, t);
    UpsertedKeyIsSeen(s, t);
    assert todo == [todo[0]] + todo[1..];
    forall k | k in BatchKeys(b.results)
      ensures NodeIn(k, LastNode(b.results, k)) in todo[1..] || s'.Sees(t, k)
    {
      if NodeIn(k, LastNode(b.results, k)) !in todo {
        assert s.Sees(t, k);
        var id :| s.SeesNode(t, id) && s.nodes[id].key == k;
        assert s'.SeesNode(t, id);
      }
    }
  }

  lemma {:induction false} UpsertedWroteRun(s: Sys, t: nat, pk: nat)
    requires TablesOk(s) && t in s.txs && s.txs[t].stage.Upserting? && |s.txs[t].stage.todo| > 0
    requires WroteRun(s, t, s.txs[t].body, pk)
    requires s.txs[t].stage.todo[0].key in BatchKeys(s.txs[t].body.results)
    requires s.txs[t].stage.todo[0].info == LastNode(s.txs[t].body.results, s.txs[t].stage.todo[0].key)
    ensures WroteRun(ApplyUpsertNode(s, t), t, s.txs[t].body, pk)
  {
  }

  lemma {:induction false} UpsertNodeTx(d: Deployment, s: Sys, t: nat)
    requires TablesOk(s) && t in s.txs && TxOk(d, s, t) && Enabled(d, s, UpsertNode(t))
    ensures TxOk(d, ApplyUpsertNode(s, t), t)
  {
    var todo := s.txs[t].stage.todo;
    assert todo[0] in todo;
    UpsertedSeesRest(s, t);
    UpsertedWroteRun(s, t, s.txs[t].stage.runPk);
  }

  lemma {:induction false} UpsertedKeeps(d: Deployment, s: Sys, t: nat, l: Ledger)
    requires Inv(d, s) && Represents(s, l) && t in s.txs && t !in s.committed
    requires s.txs[t].stage.Upserting? && |s.txs[t].stage.todo| > 0
    requires TxOk(d, ApplyUpsertNode(s, t), t)
    ensures Inv(d, ApplyUpsertNode(s, t)) && Represents(ApplyUpsertNode(s, t), l)
  {
    var s' := ApplyUpsertNode(s, t);
    UpsertNodeTables(s, t);
    UpsertNodeTouches(s, t);
    QuietStep(d, s, s', t, l);
  }

  lemma {:induction false} UpsertNodeKeeps(d: Deployment, s: Sys, t: nat, l: Ledger)
    requires Inv(d, s) && Represents(s, l) && Enabled(d, s, UpsertNode(t))
    ensures var s' := Apply(d, s, UpsertNode(t)); Inv(d, s') && Represents(s', l)
  {
    RunningIsUncommitted(d, s, t);
    UpsertNodeTx(d, s, t);
    UpsertedKeeps(d, s, t, l);
  }

  /** The read back returns an id for every key of the batch. */
  lemma {:induction false} ReadNodesTx(d: Deployment, s: Sys, t: nat)
    requires t in s.txs && TxOk(d, s, t) && Enabled(d, s, ReadNodes(t))
    ensures TxOk(d, Apply(d, s, ReadNodes(t)), t)
    ensures Apply(d, s, ReadNodes(t)).txs[t].stage.ids.Keys == BatchKeys(s.txs[t].body.results)
  {
    var b := s.txs[t].body;
    assert forall k :: k in BatchKeys(b.results) ==> s.Sees(t, k);
    assert NodeIds(s, t, BatchKeys(b.results)).Keys == BatchKeys(b.results);
  }

  lemma {:induction false} ReadNodesKeeps(d: Deployment, s: Sys, t: nat, l: Ledger)
    requires Inv(d, s) && Represents(s, l) && Enabled(d, s, ReadNodes(t))
    ensures var s' := Apply(d, s, ReadNodes(t)); Inv(d, s') && Represents(s', l)
  {
    ReadNodesTx(d, s, t);
    StandKeeps(d, s, t, Apply(d, s, ReadNodes(t)).txs[t].stage, l);
  }

  /** The lookup of node ids never misses, so building the results never crashes. */
  lemma {:induction false} AddResultsTx(d: Deployment, s: Sys, t: nat)
    requires t in s.txs && TxOk(d, s, t) && s.txs[t].stage.Adding?
    ensures ApplyAddResults(s, t).txs[t].stage.Committing? && TxOk(d, ApplyAddResults(s, t), t)
    ensures ApplyAddResults(s, t) == Stand(s, t, ApplyAddResults(s, t).txs[t].stage)
  {
    var b := s.txs[t].body;
    forall i | 0 <= i < |b.results| ensures b.results[i].node.Key() in s.txs[t].stage.ids {
      assert b.results[i] in b.results;
    }
  }

  lemma {:induction false} AddResultsKeeps(d: Deployment, s: Sys, t: nat, l: Ledger)
    requires Inv(d, s) && Represents(s, l) && Enabled(d, s, AddResults(t))
    ensures var s' := Apply(d, s, AddResults(t)); Inv(d, s') && Represents(s', l)
  {
    AddResultsTx(d, s, t);
    StandKeeps(d, s, t, ApplyAddResults(s, t).txs[t].stage, l);
  }

  // ---- the commit ----

  lemma {:induction false} CommitTables(d: Deployment, s: Sys, t: nat)
    requires TablesOk(s) && Enabled(d, s, Commit(t))
    ensures TablesOk(Apply(d, s, Commit(t))) && OnlyTouches(s, Apply(d, s, Commit(t)), t)
  {
  }

  lemma {:induction false} CommitTx(d: Deployment, s: Sys, t: nat)
    requires t in s.txs && TxOk(d, s, t) && Enabled(d, s, Commit(t))
    ensures TxOk(d, Apply(d, s, Commit(t)), t)
  {
    var s' := Apply(d, s, Commit(t));
    assert s'.CommittedRun(s.txs[t].stage.runPk);
  }

  lemma {:induction false} CommitCounts(d: Deployment, s: Sys, t: nat, l: Ledger)
    requires t in s.txs && TxOk(d, s, t) && Enabled(d, s, Commit(t)) && CountsOk(d, s) && ResultsRepresent(s, l)
    ensures CountsOk(d, Apply(d, s, Commit(t)))
  {
    var s', st := Apply(d, s, Commit(t)), s.txs[t].stage;
    forall pk | s'.CommittedRun(pk)
      ensures s'.runs[pk].externalId in d.pushes && d.Admits(d.pushes[s'.runs[pk].externalId])
        && |RowsOf(s'.results, pk)| == |d.pushes[s'.runs[pk].externalId].body.results|
    {
      RowsOfAppend(s.results, st.rows, pk);
      RowsOfUniform(st.rows, st.runPk, pk);
      if pk == st.runPk {
        forall i | 0 <= i < |s.results| ensures s.results[i].runPk != pk {
          assert RowRepresents(s, s.results[i], l.entries[i]);
        }
        RowsOfAbsent(s.results, pk);
      } else {
        assert s.CommittedRun(pk);
      }
    }
  }

  /** No other committed run has the id of a run that is about to commit. */
  lemma {:induction false} CommitIsNew(d: Deployment, s: Sys, t: nat, l: Ledger)
    requires TablesOk(s) && t in s.txs && TxOk(d, s, t) && Enabled(d, s, Commit(t)) && RunsRepresent(s, l)
    ensures s.txs[t].body.runId !in l.runs
  {
  }

  /** A node that commits now was not in the ledger, and an older one keeps its place. */
  lemma {:induction false} CommittedNodeIsEntered(d: Deployment, s: Sys, t: nat, l: Ledger, i: nat)
    requires TablesOk(s) && Enabled(d, s, Commit(t)) && NodesRepresent(s, l)
    requires WroteRun(s, t, s.txs[t].body, s.txs[t].stage.runPk) && s.txs[t].body.runId !in l.runs
    requires i in s.nodes && (s.nodes[i].xmin == t || s.CommittedNode(i))
    ensures var l' := Ingest(l, s.txs[t].body);
      s.nodes[i].key in l'.nodes && l'.nodes[s.nodes[i].key] == s.nodes[i].info
  {
    if s.nodes[i].xmin == t && s.nodes[i].key in l.nodes {
      assert false;
    }
  }

  lemma {:induction false} EnteredNodeIsCommitted(d: Deployment, s: Sys, t: nat, l: Ledger, k: NodeKey)
    requires Enabled(d, s, Commit(t)) && NodesRepresent(s, l)
    requires RowsMatch(s, t, s.txs[t].body, s.txs[t].stage.runPk, s.txs[t].stage.rows) && s.txs[t].body.runId !in l.runs
    requires k in Ingest(l, s.txs[t].body).nodes
    ensures Apply(d, s, Commit(t)).HasNode(k)
  {
    var s', b := Apply(d, s, Commit(t)), s.txs[t].body;
    if k in l.nodes {
      assert s.HasNode(k);
      var j :| s.CommittedNode(j) && s.nodes[j].key == k;
      assert s'.CommittedNode(j);
    } else {
      var r :| r in b.results && r.node.Key() == k;
      var i :| 0 <= i < |b.results| && b.results[i] == r;
      assert s'.CommittedNode(s.txs[t].stage.rows[i].nodeId);
    }
  }

  lemma {:induction false} CommitNodes(d: Deployment, s: Sys, t: nat, l: Ledger)
    requires TablesOk(s) && t in s.txs && TxOk(d, s, t) && Enabled(d, s, Commit(t)) && NodesRepresent(s, l)
    requires s.txs[t].body.runId !in l.runs
    ensures NodesRepresent(Apply(d, s, Commit(t)), Ingest(l, s.txs[t].body))
  {
    var s', l' := Apply(d, s, Commit(t)), Ingest(l, s.txs[t].body);
    forall i | s'.CommittedNode(i)
      ensures s'.nodes[i].key in l'.nodes && l'.nodes[s'.nodes[i].key] == s'.nodes[i].info
    {
      CommittedNodeIsEntered(d, s, t, l, i);
    }
    forall k | k in l'.nodes ensures s'.HasNode(k) {
      EnteredNodeIsCommitted(d, s, t, l, k);
    }
  }

  lemma {:induction false} CommitRuns(d: Deployment, s: Sys, t: nat, l: Ledger)
    requires TablesOk(s) && t in s.txs && TxOk(d, s, t) && Enabled(d, s, Commit(t)) && RunsRepresent(s, l)
    requires s.txs[t].body.runId !in l.runs
    ensures RunsRepresent(Apply(d, s, Commit(t)), Ingest(l, s.txs[t].body))
  {
    var s', b, l' := Apply(d, s, Commit(t)), s.txs[t].body, Ingest(l, s.txs[t].body);
    assert s'.CommittedRun(s.txs[t].stage.runPk);
    forall i | s'.CommittedRun(i)
      ensures s'.runs[i].externalId in l'.runs && l'.runs[s'.runs[i].externalId] == s'.runs[i].info
    {
      if s.runs[i].xmin != t {
        assert s.CommittedRun(i);
      }
    }
    forall r | r in l'.runs ensures s'.HasRun(r) {
      if r != b.runId {
        assert s.HasRun(r);
        var pk :| s.CommittedRun(pk) && s.runs[pk].externalId == r;
        assert s'.CommittedRun(pk);
      }
    }
  }

  lemma {:induction false} CommitResults(d: Deployment, s: Sys, t: nat, l: Ledger)
    requires t in s.txs && TxOk(d, s, t) && Enabled(d, s, Commit(t)) && ResultsRepresent(s, l)
    requires s.txs[t].body.runId !in l.runs
    ensures ResultsRepresent(Apply(d, s, Commit(t)), Ingest(l, s.txs[t].body))
  {
    var s', b, l' := Apply(d, s, Commit(t)), s.txs[t].body, Ingest(l, s.txs[t].body);
    forall i | 0 <= i < |s'.results| ensures RowRepresents(s', s'.results[i], l'.entries[i]) {
      if i < |s.results| {
        assert RowRepresents(s, s.results[i], l.entries[i]);
      } else {
        assert s'.results[i] == s.txs[t].stage.rows[i - |s.results|];
        assert l'.entries[i] == EntriesOf(b)[i - |s.results|];
      }
    }
  }

  /** A commit is the one step at which the ledger moves, and it moves as if the whole
      request had been handled alone at that moment. */
  lemma {:induction false} CommitKeeps(d: Deployment, s: Sys, t: nat, l: Ledger)
    requires Inv(d, s) && Represents(s, l) && Enabled(d, s, Commit(t))
    ensures s.txs[t].body.runId !in l.runs
    ensures Inv(d, Apply(d, s, Commit(t))) && Represents(Apply(d, s, Commit(t)), Ingest(l, s.txs[t].body))
  {
    CommitIsNew(d, s, t, l);
    CommitNodes(d, s, t, l);
    CommitRuns(d, s, t, l);
    CommitResults(d, s, t, l);
    CommitTables(d, s, t);
    CommitTx(d, s, t);
    CommitCounts(d, s, t, l);
    ServerStep(d, s, Apply(d, s, Commit(t)), t);
  }
}
