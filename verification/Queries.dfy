/** The read side: the newest row per node, and the history of one node. Where the database
    may order tied rows as it likes, every order it may choose is considered. */
module Queries {
  import opened Base
  import opened Schema
  import opened IngestSystem

  datatype NodeOut = NodeOut(key: NodeKey, info: NodeInfo)

  /** The committed rows that a query sees. */
  datatype Snapshot = Snapshot(nodes: map<nat, NodeOut>, results: seq<ResultRow>) {
    /** The foreign key from results to nodes. */
    predicate Closed() {
      forall i :: 0 <= i < |results| ==> results[i].nodeId in nodes
    }
  }

  function Committed(s: Sys): Snapshot {
    Snapshot(
      map id | id in s.nodes && s.nodes[id].xmin in s.committed :: NodeOut(s.nodes[id].key, s.nodes[id].info),
      s.results)
  }

  // ---- latest per node ----

  /** ORDER BY node.id, ts DESC. */
  predicate LatestOrder(a: ResultRow, b: ResultRow) {
    a.nodeId < b.nodeId || (a.nodeId == b.nodeId && a.m.ts >= b.m.ts)
  }

  predicate Sorted(rows: seq<ResultRow>) {
    forall i, j :: 0 <= i < j < |rows| ==> LatestOrder(rows[i], rows[j])
  }

  /** An order in which the join of results and nodes may be delivered. */
  ghost predicate SortOf(sorted: seq<ResultRow>, rows: seq<ResultRow>) {
    multiset(sorted) == multiset(rows) && Sorted(sorted)
  }

  /** DISTINCT ON (node.id): the first row of each run of one node. */
  function DistinctOn(rows: seq<ResultRow>): seq<ResultRow> {
    if |rows| == 0 then []
    else
      var n := |rows| - 1;
      DistinctOn(rows[..n]) + if n > 0 && rows[n - 1].nodeId == rows[n].nodeId then [] else [rows[n]]
  }

  ghost predicate LatestAnswer(snap: Snapshot, answer: seq<ResultRow>) {
    exists sorted :: SortOf(sorted, snap.results) && answer == DistinctOn(sorted)
  }

  predicate Increasing(d: seq<ResultRow>) {
    forall i, j :: 0 <= i < j < |d| ==> d[i].nodeId < d[j].nodeId
  }

  /** Some row of `d` is of the same node and at least as new. */
  ghost predicate Tops(d: seq<ResultRow>, r: ResultRow) {
    exists i :: 0 <= i < |d| && d[i].nodeId == r.nodeId && d[i].m.ts >= r.m.ts
  }

  lemma {:induction false} DistinctOnLast(rows: seq<ResultRow>)
    requires |rows| > 0
    ensures |DistinctOn(rows)| > 0 && DistinctOn(rows)[|DistinctOn(rows)| - 1].nodeId == rows[|rows| - 1].nodeId
  {
    var n := |rows| - 1;
    if n > 0 {
      DistinctOnLast(rows[..n]);
    }
  }

  lemma {:induction false} DistinctOnSubset(rows: seq<ResultRow>, x: ResultRow)
    requires x in DistinctOn(rows)
    ensures x in rows
  {
    var n := |rows| - 1;
    assert rows == rows[..n] + [rows[n]];
    if x in DistinctOn(rows[..n]) {
      DistinctOnSubset(rows[..n], x);
    }
  }

  lemma {:induction false} DistinctOnIncreasing(rows: seq<ResultRow>)
    requires Sorted(rows)
    ensures Increasing(DistinctOn(rows))
  {
    if |rows| > 0 {
      var n := |rows| - 1;
      DistinctOnIncreasing(rows[..n]);
      if n > 0 {
        DistinctOnLast(rows[..n]);
        assert LatestOrder(rows[n - 1], rows[n]);
      }
    }
  }

  lemma {:induction false} TopsGrow(d: seq<ResultRow>, more: seq<ResultRow>, r: ResultRow)
    requires Tops(d, r)
    ensures Tops(d + more, r)
  {
    var i :| 0 <= i < |d| && d[i].nodeId == r.nodeId && d[i].m.ts >= r.m.ts;
    assert (d + more)[i] == d[i];
  }

  lemma {:induction false} DistinctOnTops(rows: seq<ResultRow>, k: nat)
    requires Sorted(rows) && k < |rows|
    ensures Tops(DistinctOn(rows), rows[k])
  {
    var n := |rows| - 1;
    var before := DistinctOn(rows[..n]);
    if k < n {
      DistinctOnTops(rows[..n], k);
      TopsGrow(before, if rows[n - 1].nodeId == rows[n].nodeId then [] else [rows[n]], rows[k]);
    } else if n > 0 && rows[n - 1].nodeId == rows[n].nodeId {
      DistinctOnTops(rows[..n], n - 1);
      assert LatestOrder(rows[n - 1], rows[n]);
      assert Tops(before, rows[n]);
      TopsGrow(before, [], rows[n]);
    } else {
      assert DistinctOn(rows)[|before|] == rows[n];
    }
  }

  /** Whatever order the database picks, the answer has one row for each node that has
      results and for no other, and that row is a result of it with the greatest time. */
  lemma {:induction false} LatestIsNewestPerNode(snap: Snapshot, answer: seq<ResultRow>)
    requires LatestAnswer(snap, answer)
    ensures Increasing(answer)
    ensures forall x :: x in answer ==> x in snap.results
    ensures forall r :: r in snap.results ==> Tops(answer, r)
  {
    var sorted :| SortOf(sorted, snap.results) && answer == DistinctOn(sorted);
    DistinctOnIncreasing(sorted);
    SameElements(sorted, snap.results);
    forall x | x in answer ensures x in snap.results {
      DistinctOnSubset(sorted, x);
    }
    forall r | r in snap.results ensures Tops(answer, r) {
      var k :| 0 <= k < |sorted| && sorted[k] == r;
      DistinctOnTops(sorted, k);
    }
  }

  lemma {:induction false} SameElements(a: seq<ResultRow>, b: seq<ResultRow>)
    requires multiset(a) == multiset(b)
    ensures forall r :: r in a <==> r in b
  {
    forall r ensures r in a <==> r in b {
      assert r in a <==> r in multiset(a);
      assert r in b <==> r in multiset(b);
    }
  }

  // ---- history of one node ----

  function HistoryRows(rows: seq<ResultRow>, nodeId: nat, since: Option<int>): seq<ResultRow> {
    if |rows| == 0 then []
    else
      var r := rows[|rows| - 1];
      HistoryRows(rows[..|rows| - 1], nodeId, since)
      + if r.nodeId == nodeId && (since.None? || r.m.ts >= since.value) then [r] else []
  }

  lemma {:induction false} HistoryRowsAre(rows: seq<ResultRow>, nodeId: nat, since: Option<int>)
    ensures forall r :: r in HistoryRows(rows, nodeId, since) <==>
      r in rows && r.nodeId == nodeId && (since.None? || r.m.ts >= since.value)
  {
    if |rows| > 0 {
      var n := |rows| - 1;
      HistoryRowsAre(rows[..n], nodeId, since);
      assert rows == rows[..n] + [rows[n]];
    }
  }

  predicate NewestFirst(rows: seq<ResultRow>) {
    forall i, j :: 0 <= i < j < |rows| ==> rows[i].m.ts >= rows[j].m.ts
  }

  /** ORDER BY ts DESC LIMIT: an order the database may choose, cut to length. */
  ghost predicate HistoryAnswer(snap: Snapshot, nodeId: nat, since: Option<int>, limit: nat, answer: seq<ResultRow>) {
    exists sorted :: IsHistoryOrder(snap, nodeId, since, sorted)
      && answer == if |sorted| <= limit then sorted else sorted[..limit]
  }

  ghost predicate IsHistoryOrder(snap: Snapshot, nodeId: nat, since: Option<int>, sorted: seq<ResultRow>) {
    multiset(sorted) == multiset(HistoryRows(snap.results, nodeId, since)) && NewestFirst(sorted)
  }

  /** Rows of `all` that `answer` holds less often are no newer than any it holds. */
  predicate HoldsNewest(all: seq<ResultRow>, answer: seq<ResultRow>) {
    forall r, a :: r in all && a in answer && multiset(answer)[r] < multiset(all)[r] ==> a.m.ts >= r.m.ts
  }

  lemma {:induction false} CutOf(sorted: seq<ResultRow>, n: nat)
    requires NewestFirst(sorted) && n <= |sorted|
    ensures NewestFirst(sorted[..n]) && multiset(sorted[..n]) <= multiset(sorted) && HoldsNewest(sorted, sorted[..n])
  {
    var cut, rest := sorted[..n], sorted[n..];
    assert multiset(sorted) == multiset(cut) + multiset(rest) by { assert sorted == cut + rest; }
    forall r, a | r in sorted && a in cut && multiset(cut)[r] < multiset(sorted)[r] ensures a.m.ts >= r.m.ts {
      LeftInRest(rest, r);
      var j :| 0 <= j < |rest| && rest[j] == r;
      var i :| 0 <= i < n && cut[i] == a;
      assert sorted[i] == a && sorted[n + j] == r;
    }
  }

  lemma {:induction false} LeftInRest(rest: seq<ResultRow>, r: ResultRow)
    requires multiset(rest)[r] > 0
    ensures r in rest
  {
  }

  /** The first rows of `all`, newest first, as many as there are or as fit. */
  predicate NewestPrefix(all: seq<ResultRow>, limit: nat, answer: seq<ResultRow>) {
    && NewestFirst(answer)
    && multiset(answer) <= multiset(all) && |answer| == (if |all| <= limit then |all| else limit)
    && HoldsNewest(all, answer)
  }

  lemma {:induction false} PrefixOfSame(sorted: seq<ResultRow>, all: seq<ResultRow>, limit: nat, answer: seq<ResultRow>)
    requires multiset(sorted) == multiset(all) && NewestPrefix(sorted, limit, answer)
    ensures NewestPrefix(all, limit, answer) && forall r :: r in answer ==> r in all
  {
    assert |sorted| == |multiset(sorted)| == |all|;
    forall r ensures (r in all ==> r in sorted) && (r in answer ==> r in all) {
      assert r in all ==> r in multiset(sorted);
      assert r in answer ==> r in multiset(answer);
      assert r in multiset(all) ==> r in all;
    }
  }

  /** The history is newest first and of the exact length, holds each row of the node since
      the given time at most as often as it is stored, and leaves out only rows that are no
      newer than every row it holds, and only when it is full. */
  lemma {:induction false} HistoryIsNewestPrefix(snap: Snapshot, nodeId: nat, since: Option<int>, limit: nat,
                                                 answer: seq<ResultRow>)
    requires HistoryAnswer(snap, nodeId, since, limit, answer)
    ensures NewestPrefix(HistoryRows(snap.results, nodeId, since), limit, answer)
    ensures forall r :: r in answer ==>
      r in snap.results && r.nodeId == nodeId && (since.None? || r.m.ts >= since.value)
  {
    var sorted :|
      IsHistoryOrder(snap, nodeId, since, sorted) && answer == if |sorted| <= limit then sorted else sorted[..limit];
    CutOf(sorted, |answer|);
    assert sorted[..|answer|] == answer;
    PrefixOfSame(sorted, HistoryRows(snap.results, nodeId, since), limit, answer);
    HistoryRowsAre(snap.results, nodeId, since);
  }

  // ---- some order can always be picked ----

  /** No result of the node is newer. */
  predicate IsNewest(snap: Snapshot, l: ResultRow) {
    forall r :: r in snap.results && r.nodeId == l.nodeId ==> l.m.ts >= r.m.ts
  }

  type Order = (ResultRow, ResultRow) -> bool

  predicate InOrder(rows: seq<ResultRow>, le: Order) {
    forall i, j :: 0 <= i < j < |rows| ==> le(rows[i], rows[j])
  }

  ghost predicate IsOrder(le: Order) {
    (forall a, b :: le(a, b) || le(b, a)) && (forall a, b, c :: le(a, b) && le(b, c) ==> le(a, c))
  }

  lemma {:induction false} InsertInOrder(rows: seq<ResultRow>, x: ResultRow, le: Order) returns (r: seq<ResultRow>)
    requires IsOrder(le) && InOrder(rows, le)
    ensures InOrder(r, le) && multiset(r) == multiset(rows) + multiset{x}
  {
    if |rows| == 0 || le(x, rows[0]) {
      r := [x] + rows;
    } else {
      var tail := InsertInOrder(rows[1..], x, le);
      r := [rows[0]] + tail;
      assert rows == [rows[0]] + rows[1..];
      forall j | 0 <= j < |tail| ensures le(rows[0], tail[j]) {
        assert tail[j] in multiset(tail);
        assert tail[j] == x || tail[j] in rows[1..];
      }
    }
  }

  lemma {:induction false} SortExists(rows: seq<ResultRow>, le: Order) returns (sorted: seq<ResultRow>)
    requires IsOrder(le)
    ensures InOrder(sorted, le) && multiset(sorted) == multiset(rows)
  {
    sorted := [];
    if |rows| > 0 {
      sorted := SortExists(rows[1..], le);
      sorted := InsertInOrder(sorted, rows[0], le);
      assert rows == [rows[0]] + rows[1..];
    }
  }

  /** The latest view has an answer for every store. */
  lemma {:induction false} LatestAnswerExists(snap: Snapshot) returns (answer: seq<ResultRow>)
    ensures LatestAnswer(snap, answer)
  {
    var sorted := SortExists(snap.results, LatestOrder);
    assert SortOf(sorted, snap.results);
    answer := DistinctOn(sorted);
  }

  /** The order of the latest view in which `q` comes before its ties. */
  function Favouring(q: ResultRow): Order {
    (a: ResultRow, b: ResultRow) =>
      a.nodeId < b.nodeId
      || (a.nodeId == b.nodeId && (a.m.ts > b.m.ts || (a.m.ts == b.m.ts && (a == q || b != q))))
  }

  lemma {:induction false} FirstOfNode(rows: seq<ResultRow>, k: nat)
    requires k < |rows| && (k > 0 ==> rows[k - 1].nodeId != rows[k].nodeId)
    ensures rows[k] in DistinctOn(rows)
  {
    var n := |rows| - 1;
    if k < n {
      FirstOfNode(rows[..n], k);
    }
  }

  lemma {:induction false} FirstAt(rows: seq<ResultRow>, q: ResultRow) returns (k: nat)
    requires q in rows
    ensures k < |rows| && rows[k] == q && forall i :: 0 <= i < k ==> rows[i] != q
  {
    k := 0;
    if rows[0] != q {
      assert rows == [rows[0]] + rows[1..];
      k := FirstAt(rows[1..], q);
      k := k + 1;
      forall i | 0 <= i < k ensures rows[i] != q {
        assert i > 0 ==> rows[i] == rows[1..][i - 1];
      }
    }
  }

  /** Any row that none of its node is newer than can be the one that the latest view shows. */
  lemma {:induction false} AnyNewestCanBeLatest(snap: Snapshot, q: ResultRow) returns (answer: seq<ResultRow>)
    requires q in snap.results && IsNewest(snap, q)
    ensures LatestAnswer(snap, answer) && q in answer
  {
    var sorted := SortExists(snap.results, Favouring(q));
    SameElements(sorted, snap.results);
    forall i, j | 0 <= i < j < |sorted| ensures LatestOrder(sorted[i], sorted[j]) {
      assert Favouring(q)(sorted[i], sorted[j]);
    }
    assert SortOf(sorted, snap.results);
    answer := DistinctOn(sorted);
    var k := FirstAt(sorted, q);
    if k > 0 && sorted[k - 1].nodeId == q.nodeId {
      assert Favouring(q)(sorted[k - 1], sorted[k]);
      assert sorted[k - 1] in snap.results;
    }
    FirstOfNode(sorted, k);
  }

  predicate NoOlder(a: ResultRow, b: ResultRow) { a.m.ts >= b.m.ts }

  lemma {:induction false} HistoryOrderExists(snap: Snapshot, nodeId: nat, since: Option<int>)
    returns (sorted: seq<ResultRow>)
    ensures IsHistoryOrder(snap, nodeId, since, sorted)
  {
    sorted := SortExists(HistoryRows(snap.results, nodeId, since), NoOlder);
    forall i, j | 0 <= i < j < |sorted| ensures sorted[i].m.ts >= sorted[j].m.ts {
      assert NoOlder(sorted[i], sorted[j]);
    }
  }

  /** So has the history of any node. */
  lemma {:induction false} HistoryAnswerExists(snap: Snapshot, nodeId: nat, since: Option<int>, limit: nat)
    returns (answer: seq<ResultRow>)
    ensures HistoryAnswer(snap, nodeId, since, limit, answer)
  {
    var sorted := HistoryOrderExists(snap, nodeId, since);
    answer := if |sorted| <= limit then sorted else sorted[..limit];
  }

  /** And any row that none is newer than can be its head. */
  lemma {:induction false} AnyNewestCanLead(snap: Snapshot, since: Option<int>, limit: nat, r: ResultRow)
    returns (answer: seq<ResultRow>)
    requires limit >= 1 && r in snap.results && (since.None? || r.m.ts >= since.value) && IsNewest(snap, r)
    ensures HistoryAnswer(snap, r.nodeId, since, limit, answer) && |answer| > 0 && answer[0] == r
  {
    HistoryRowsAre(snap.results, r.nodeId, since);
    var sorted := HistoryOrderExists(snap, r.nodeId, since);
    SameElements(sorted, HistoryRows(snap.results, r.nodeId, since));
    var k :| 0 <= k < |sorted| && sorted[k] == r;
    var led := LeadWith(sorted, k);
    answer := if |led| <= limit then led else led[..limit];
    assert IsHistoryOrder(snap, r.nodeId, since, led);
  }

  lemma {:induction false} LeadWith(sorted: seq<ResultRow>, k: nat) returns (led: seq<ResultRow>)
    requires NewestFirst(sorted) && k < |sorted| && forall i :: 0 <= i < |sorted| ==> sorted[k].m.ts >= sorted[i].m.ts
    ensures NewestFirst(led) && multiset(led) == multiset(sorted) && |led| > 0 && led[0] == sorted[k]
  {
    var before, after := sorted[..k], sorted[k + 1..];
    var rest := before + after;
    led := [sorted[k]] + rest;
    assert sorted == before + [sorted[k]] + after;
    forall i, j | 0 <= i < j < |led| ensures led[i].m.ts >= led[j].m.ts {
      assert led[j] == rest[j - 1] == if j - 1 < k then sorted[j - 1] else sorted[j];
      assert i > 0 ==> led[i] == rest[i - 1] == if i - 1 < k then sorted[i - 1] else sorted[i];
    }
  }

  // ---- the latest view and the history ----

  /** No other result of the node has the time of `l`. */
  predicate Untied(snap: Snapshot, l: ResultRow) {
    forall r :: r in snap.results && r.nodeId == l.nodeId && r.m.ts == l.m.ts ==> r == l
  }

  predicate Since(since: Option<int>, l: ResultRow) { since.None? || l.m.ts >= since.value }

  lemma {:induction false} LatestIsNewest(snap: Snapshot, latest: seq<ResultRow>, i: nat)
    requires LatestAnswer(snap, latest) && i < |latest|
    ensures latest[i] in snap.results && IsNewest(snap, latest[i])
  {
    LatestIsNewestPerNode(snap, latest);
    forall r | r in snap.results && r.nodeId == latest[i].nodeId ensures latest[i].m.ts >= r.m.ts {
      assert Tops(latest, r);
    }
  }

  /** When its newest time is not tied the latest row of a node leads its history, whatever
      orders the database picks for the two queries. */
  lemma {:induction false} LatestIsHeadOfHistory(snap: Snapshot, latest: seq<ResultRow>, i: nat, since: Option<int>,
                                                 limit: nat, history: seq<ResultRow>)
    requires LatestAnswer(snap, latest) && i < |latest| && limit >= 1
    requires Since(since, latest[i]) && Untied(snap, latest[i])
    requires HistoryAnswer(snap, latest[i].nodeId, since, limit, history)
    ensures |history| > 0 && history[0] == latest[i]
  {
    var l := latest[i];
    var all := HistoryRows(snap.results, l.nodeId, since);
    LatestIsNewest(snap, latest, i);
    HistoryRowsAre(snap.results, l.nodeId, since);
    HistoryIsNewestPrefix(snap, l.nodeId, since, limit, history);
    assert l in all;
    assert |history| > 0 && history[0] in history;
    if l in history {
      var k :| 0 <= k < |history| && history[k] == l;
      assert k > 0 ==> history[0].m.ts >= history[k].m.ts;
    }
  }

  /** The lookup of a node by name may return any node of that name. */
  predicate NamedBy(snap: Snapshot, name: string, id: nat) {
    id in snap.nodes && snap.nodes[id].info.name == name
  }

  /** The history asked for by name. */
  ghost predicate NamedHistoryAnswer(snap: Snapshot, name: string, since: Option<int>, limit: nat,
                                     answer: seq<ResultRow>) {
    exists id :: NamedBy(snap, name, id) && HistoryAnswer(snap, id, since, limit, answer)
  }

  /** Another node of the name, with results or without, can be the one answered about. */
  lemma {:induction false} SharedNameMisleads(snap: Snapshot, l: ResultRow, name: string, id: nat, since: Option<int>,
                                              limit: nat)
    returns (history: seq<ResultRow>)
    requires NamedBy(snap, name, id) && id != l.nodeId
    ensures NamedHistoryAnswer(snap, name, since, limit, history) && (|history| == 0 || history[0] != l)
  {
    history := HistoryAnswerExists(snap, id, since, limit);
    HistoryIsNewestPrefix(snap, id, since, limit, history);
    assert |history| > 0 ==> history[0] in history;
  }

  ghost predicate AlwaysLeads(snap: Snapshot, name: string, since: Option<int>, limit: nat, l: ResultRow) {
    forall h :: NamedHistoryAnswer(snap, name, since, limit, h) ==> |h| > 0 && h[0] == l
  }

  lemma {:induction false} LeadingRowIsAlone(snap: Snapshot, latest: seq<ResultRow>, i: nat, name: string,
                                             since: Option<int>, limit: nat)
    requires LatestAnswer(snap, latest) && i < |latest| && limit >= 1 && NamedBy(snap, name, latest[i].nodeId)
    requires AlwaysLeads(snap, name, since, limit, latest[i])
    ensures forall id :: NamedBy(snap, name, id) ==> id == latest[i].nodeId
    ensures Since(since, latest[i]) && Untied(snap, latest[i])
  {
    var l := latest[i];
    LatestIsNewest(snap, latest, i);
    forall id | NamedBy(snap, name, id) ensures id == l.nodeId {
      if id != l.nodeId {
        var h := SharedNameMisleads(snap, l, name, id, since, limit);
      }
    }
    var own := HistoryAnswerExists(snap, l.nodeId, since, limit);
    assert own[0] == l && l in own;
    HistoryIsNewestPrefix(snap, l.nodeId, since, limit, own);
    forall r | r in snap.results && r.nodeId == l.nodeId && r.m.ts == l.m.ts ensures r == l {
      var h := AnyNewestCanLead(snap, since, limit, r);
      assert NamedHistoryAnswer(snap, name, since, limit, h);
    }
  }

  /** The history asked for by name is sure to begin with the latest row of a node of that
      name exactly if no other node has the name, the row is within the time asked for, and
      its time is not tied. */
  lemma {:induction false} NamedHistoryAgreesIff(snap: Snapshot, latest: seq<ResultRow>, i: nat, name: string,
                                                 since: Option<int>, limit: nat)
    requires LatestAnswer(snap, latest) && i < |latest| && limit >= 1 && NamedBy(snap, name, latest[i].nodeId)
    ensures AlwaysLeads(snap, name, since, limit, latest[i]) <==>
      && (forall id :: NamedBy(snap, name, id) ==> id == latest[i].nodeId)
      && Since(since, latest[i]) && Untied(snap, latest[i])
  {
    if AlwaysLeads(snap, name, since, limit, latest[i]) {
      LeadingRowIsAlone(snap, latest, i, name, since, limit);
    } else {
      var h :| NamedHistoryAnswer(snap, name, since, limit, h) && !(|h| > 0 && h[0] == latest[i]);
      var id :| NamedBy(snap, name, id) && HistoryAnswer(snap, id, since, limit, h);
      if id == latest[i].nodeId && Since(since, latest[i]) && Untied(snap, latest[i]) {
        LatestIsHeadOfHistory(snap, latest, i, since, limit, h);
      }
    }
  }

  // ---- the list of nodes ----

  /** One entry of `/v1/nodes`. */
  datatype NodeStatus = NodeStatus(name: string, addr: string, sni: string, provider: Option<string>, ts: int, up: bool,
                                   tcpOk: bool, tlsOk: bool, latencyMs: Option<real>, error: Option<string>,
                                   failedPhase: Option<FailedPhase>)

  function StatusOf(n: NodeOut, r: ResultRow): NodeStatus {
    NodeStatus(n.info.name, n.key.addr, n.key.sni, n.info.provider, r.m.ts, r.m.tcpOk && r.m.tlsOk,
      r.m.tcpOk, r.m.tlsOk, r.m.latencyMs, r.m.error, r.m.failedPhase)
  }

  /** One entry for each row, in order: the node, its columns, and whether both phases passed. */
  function ListNodes(rows: seq<(NodeOut, ResultRow)>): (list: seq<NodeStatus>)
    ensures |list| == |rows| && forall i :: 0 <= i < |rows| ==>
      var n, m := rows[i].0, rows[i].1.m;
      && list[i].name == n.info.name && list[i].addr == n.key.addr && list[i].sni == n.key.sni
      && list[i].provider == n.info.provider && list[i].ts == m.ts && (list[i].up <==> m.tcpOk && m.tlsOk)
      && list[i].tcpOk == m.tcpOk && list[i].tlsOk == m.tlsOk && list[i].latencyMs == m.latencyMs
      && list[i].error == m.error && list[i].failedPhase == m.failedPhase
  {
    seq(|rows|, i requires 0 <= i < |rows| => StatusOf(rows[i].0, rows[i].1))
  }
}
