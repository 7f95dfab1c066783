/** The `/metrics` page of a store in any reachable state, as a scrape reads it. */
module NodePage {
  import opened Base
  import opened Schema
  import opened PushPayload
  import opened IngestSystem
  import opened ExactlyOnce
  import opened Exposition
  import opened MetricsPage
  import opened Queries
  import opened EndToEnd
  import Config

  /** Each row joined with its node. */
  ghost predicate Joins(snap: Snapshot, latest: seq<ResultRow>, rows: seq<Row>) {
    |rows| == |latest|
    && forall i :: 0 <= i < |rows| ==>
         rows[i].1 == latest[i] && latest[i].nodeId in snap.nodes && rows[i].0 == snap.nodes[latest[i].nodeId]
  }

  /** The rows that a page is built from: the newest of each node, with its node. */
  ghost predicate IsPageInput(s: Sys, rows: seq<Row>) {
    exists latest: seq<ResultRow> :: LatestAnswer(Committed(s), latest) && Joins(Committed(s), latest, rows)
  }

  /** Every store has a page. */
  lemma {:induction false} PageInputExists(d: Deployment, steps: seq<Step>) returns (rows: seq<Row>)
    requires d.Valid() && Exec(d, steps).Some?
    ensures IsPageInput(Exec(d, steps).value, rows)
  {
    var latest := LatestAnswerExists(Committed(Exec(d, steps).value));
    rows := JoinedInput(d, steps, latest);
  }

  lemma {:induction false} JoinedInput(d: Deployment, steps: seq<Step>, latest: seq<ResultRow>) returns (rows: seq<Row>)
    requires d.Valid() && Exec(d, steps).Some? && LatestAnswer(Committed(Exec(d, steps).value), latest)
    ensures IsPageInput(Exec(d, steps).value, rows) && Joins(Committed(Exec(d, steps).value), latest, rows)
  {
    var snap := Committed(Exec(d, steps).value);
    SnapshotIsClosed(d, steps);
    LatestIsNewestPerNode(snap, latest);
    forall i | 0 <= i < |latest| ensures latest[i].nodeId in snap.nodes {
      assert latest[i] in snap.results;
    }
    rows := seq(|latest|, i requires 0 <= i < |latest| => (snap.nodes[latest[i].nodeId], latest[i]));
    assert Joins(snap, latest, rows);
  }

  lemma {:induction false} RowIsCoherent(h: Config.Host, d: Deployment, steps: seq<Step>, rows: seq<Row>, i: nat)
    requires FedByNodecheck(h, d) && Exec(d, steps).Some? && IsPageInput(Exec(d, steps).value, rows) && i < |rows|
    ensures Coherent(rows[i].1.m)
  {
    var s := Exec(d, steps).value;
    StoredIsCoherent(h, d, steps);
    var latest: seq<ResultRow> :| LatestAnswer(Committed(s), latest) && Joins(Committed(s), latest, rows);
    LatestIsNewestPerNode(Committed(s), latest);
    assert latest[i] in s.results;
  }

  /** No two rows of a page are of one node. */
  lemma {:induction false} RowsAreOfDifferentNodes(d: Deployment, steps: seq<Step>, rows: seq<Row>, i: nat, j: nat)
    requires d.Valid() && Exec(d, steps).Some? && IsPageInput(Exec(d, steps).value, rows) && i < |rows| && j < |rows|
    requires NodeLabels(rows[i].0) == NodeLabels(rows[j].0)
    ensures i == j
  {
    var s := Exec(d, steps).value;
    var latest: seq<ResultRow> :| LatestAnswer(Committed(s), latest) && Joins(Committed(s), latest, rows);
    LabelsNameTheNode(rows[i].0, rows[j].0);
    assert s.CommittedNode(latest[i].nodeId) && s.CommittedNode(latest[j].nodeId);
    NodesAreNamedOnce(d, steps);
    assert Increasing(latest) by { LatestIsNewestPerNode(Committed(s), latest); }
  }

  /** What a page shows of a gauge under a label set. */
  predicate Shows(page: seq<Line>, g: Gauge, labels: seq<Label>, v: string) {
    Sample(GaugeName(g), labels, v) in Scraped(page, GaugeName(g))
  }

  predicate AtMostOne(rows: seq<Row>, labels: seq<Label>) {
    forall i, j :: 0 <= i < j < |rows| ==> NodeLabels(rows[i].0) != labels || NodeLabels(rows[j].0) != labels
  }

  /** On the page of any reachable store that only nodecheck feeds, read back by a scrape, a
      node has a handshake time exactly if it is shown as up, and none is shown as both up
      and down. */
  lemma {:induction false} HandshakeTimeIffUp(h: Config.Host, d: Deployment, steps: seq<Step>, rows: seq<Row>, now: int,
                                              fmt: Numbers, labels: seq<Label>)
    requires FedByNodecheck(h, d) && Exec(d, steps).Some? && IsPageInput(Exec(d, steps).value, rows) && fmt.AllOneLine()
    ensures var page := ParseAll(Render(Page(rows, now, fmt)));
      && page.Some?
      && ((exists v :: Shows(page.value, HandshakeSeconds, labels, v)) <==> Shows(page.value, NodeUp, labels, "1"))
      && !(Shows(page.value, NodeUp, labels, "1") && Shows(page.value, NodeUp, labels, "0"))
  {
    forall j | 0 <= j < |rows| ensures Coherent(rows[j].1.m) {
      RowIsCoherent(h, d, steps, rows, j);
    }
    forall i, j | 0 <= i < j < |rows| && NodeLabels(rows[i].0) == labels == NodeLabels(rows[j].0) ensures false {
      RowsAreOfDifferentNodes(d, steps, rows, i, j);
    }
    ShownIsCoherent(rows, now, fmt, labels);
  }

  lemma {:induction false} ShowsIff(g: Gauge, rows: seq<Row>, now: int, fmt: Numbers, labels: seq<Label>, v: string)
    requires fmt.AllOneLine()
    ensures var page := ParseAll(Render(Page(rows, now, fmt)));
      page.Some? && (Shows(page.value, g, labels, v) <==> HasRow(g, rows, now, fmt, labels, v))
  {
    ScrapeRecoversEveryGauge(rows, now, fmt, g);
    GaugeShowsIff(g, rows, now, fmt, labels, v);
  }

  lemma {:induction false} ShownIsCoherent(rows: seq<Row>, now: int, fmt: Numbers, labels: seq<Label>)
    requires fmt.AllOneLine() && forall j :: 0 <= j < |rows| ==> Coherent(rows[j].1.m)
    requires AtMostOne(rows, labels)
    ensures var page := ParseAll(Render(Page(rows, now, fmt)));
      && page.Some?
      && ((exists v :: Shows(page.value, HandshakeSeconds, labels, v)) <==> Shows(page.value, NodeUp, labels, "1"))
      && !(Shows(page.value, NodeUp, labels, "1") && Shows(page.value, NodeUp, labels, "0"))
  {
    ShowsIff(NodeUp, rows, now, fmt, labels, "1");
    ShowsIff(NodeUp, rows, now, fmt, labels, "0");
    forall v { ShowsIff(HandshakeSeconds, rows, now, fmt, labels, v); }
    RowsAgree(rows, now, fmt, labels);
  }

  lemma {:induction false} RowsAgree(rows: seq<Row>, now: int, fmt: Numbers, labels: seq<Label>)
    requires forall j :: 0 <= j < |rows| ==> Coherent(rows[j].1.m)
    requires AtMostOne(rows, labels)
    ensures (exists v :: HasRow(HandshakeSeconds, rows, now, fmt, labels, v)) <==>
      HasRow(NodeUp, rows, now, fmt, labels, "1")
    ensures !(HasRow(NodeUp, rows, now, fmt, labels, "1") && HasRow(NodeUp, rows, now, fmt, labels, "0"))
  {
    assert "0" != "1";
    if HasRow(NodeUp, rows, now, fmt, labels, "1") {
      var j :| 0 <= j < |rows| && NodeLabels(rows[j].0) == labels && Value(NodeUp, rows[j].1.m, now, fmt) == Some("1");
      assert HasRow(HandshakeSeconds, rows, now, fmt, labels, Value(HandshakeSeconds, rows[j].1.m, now, fmt).value);
    }
  }

  /** On the page of any reachable store each node has one sample of each gauge that it has a
      value in: its verdict, the age of its newest result, and its latency in seconds. */
  lemma {:induction false} EachNodeOnce(d: Deployment, steps: seq<Step>, rows: seq<Row>, now: int, fmt: Numbers, i: nat)
    requires d.Valid() && Exec(d, steps).Some? && IsPageInput(Exec(d, steps).value,
      rows) && fmt.AllOneLine() && i < |rows|
    ensures var page := ParseAll(Render(Page(rows, now, fmt)));
      page.Some? && NodeShown(page.value, rows[i], now, fmt)
  {
    PageShows(rows, now, fmt);
    LabelsOfOneRow(d, steps, rows, i);
    RowShown(ParseAll(Render(Page(rows, now, fmt))).value, rows, now, fmt, i);
  }

  lemma {:induction false} PageShows(rows: seq<Row>, now: int, fmt: Numbers)
    requires fmt.AllOneLine()
    ensures var page := ParseAll(Render(Page(rows, now, fmt))); page.Some? && ShowsRows(page.value, rows, now, fmt)
  {
    PageHasGauges(rows, now, fmt);
    HasGaugesShows(Page(rows, now, fmt), rows, now, fmt);
  }

  lemma {:induction false} LabelsOfOneRow(d: Deployment, steps: seq<Step>, rows: seq<Row>, i: nat)
    requires d.Valid() && Exec(d, steps).Some? && IsPageInput(Exec(d, steps).value, rows) && i < |rows|
    ensures forall j :: 0 <= j < |rows| && j != i ==> FourLabels(rows[j]) != FourLabels(rows[i])
  {
    forall j | 0 <= j < |rows| && j != i ensures FourLabels(rows[j]) != FourLabels(rows[i]) {
      if FourLabels(rows[j]) == FourLabels(rows[i]) {
        assert NodeLabels(rows[j].0) == FourLabels(rows[j]) && NodeLabels(rows[i].0) == FourLabels(rows[i]);
        RowsAreOfDifferentNodes(d, steps, rows, i, j);
      }
    }
  }

  ghost predicate NodeShown(page: seq<Line>, row: Row, now: int, fmt: Numbers) {
    && OnlySample(Scraped(page, "nodecheck_node_up"), "nodecheck_node_up", FourLabels(row),
         if row.1.m.tcpOk && row.1.m.tlsOk then "1" else "0")
    && OnlySample(Scraped(page, "nodecheck_last_check_age_seconds"), "nodecheck_last_check_age_seconds",
      FourLabels(row),
         fmt.one(now - row.1.m.ts))
    && (row.1.m.latencyMs.Some? ==>
          OnlySample(Scraped(page, "nodecheck_handshake_seconds"), "nodecheck_handshake_seconds", FourLabels(row),
            fmt.six(row.1.m.latencyMs.value / 1000.0)))
  }

  lemma {:induction false} RowShown(page: seq<Line>, rows: seq<Row>, now: int, fmt: Numbers, i: nat)
    requires ShowsRows(page, rows, now, fmt) && i < |rows|
    requires forall j :: 0 <= j < |rows| && j != i ==> FourLabels(rows[j]) != FourLabels(rows[i])
    ensures NodeShown(page, rows[i], now, fmt)
  {
    ColumnHasOne(rows, "nodecheck_node_up", FourLabels, (row: Row) => true,
      (row: Row) => if row.1.m.tcpOk && row.1.m.tlsOk then "1" else "0", i);
    ColumnHasOne(rows, "nodecheck_last_check_age_seconds", FourLabels, (row: Row) => true,
      (row: Row) => fmt.one(now - row.1.m.ts), i);
    if rows[i].1.m.latencyMs.Some? {
      ColumnHasOne(rows, "nodecheck_handshake_seconds", FourLabels, (row: Row) => row.1.m.latencyMs.Some?,
        (row: Row) => if row.1.m.latencyMs.Some? then fmt.six(row.1.m.latencyMs.value / 1000.0) else "", i);
    }
  }

  // ---- the list of nodes and the page ----

  /** What `/v1/nodes` says of a node, made from one answer of the query. */
  predicate ListSaysUp(list: seq<Row>, id: nat) {
    exists i :: 0 <= i < |list| && list[i].1.nodeId == id && ListNodes(list)[i].up
  }

  /** What `/metrics` says of a node, made from one answer and parsed back. */
  predicate PageSaysUp(s: Sys, rows: seq<Row>, now: int, fmt: Numbers, id: nat)
    requires s.CommittedNode(id)
  {
    var page := ParseAll(Render(Page(rows, now, fmt)));
    page.Some? && Shows(page.value, NodeUp, NodeLabels(Committed(s).nodes[id]), "1")
  }

  /** Each endpoint asks the query itself, so each may get any of its answers. */
  ghost predicate AlwaysAgree(s: Sys, now: int, fmt: Numbers, id: nat)
    requires s.CommittedNode(id)
  {
    forall list, rows :: IsPageInput(s, list) && IsPageInput(s, rows) ==>
      (ListSaysUp(list, id) <==> PageSaysUp(s, rows, now, fmt, id))
  }

  predicate IsUp(m: Measurement) { m.tcpOk && m.tlsOk }

  /** The results of the node that share its greatest time have one verdict. */
  ghost predicate NewestAgree(s: Sys, id: nat) {
    forall q, r :: NewestOf(s, id, q) && NewestOf(s, id, r) ==> (IsUp(q.m) <==> IsUp(r.m))
  }

  ghost predicate NewestOf(s: Sys, id: nat, q: ResultRow) {
    q in s.results && q.nodeId == id && IsNewest(Committed(s), q)
  }

  predicate HasNodeRow(rows: seq<Row>, id: nat) {
    exists i :: 0 <= i < |rows| && rows[i].1.nodeId == id
  }

  /** Each row of an answer is a newest result of its node, joined with that node. */
  lemma {:induction false} RowIsNewest(s: Sys, rows: seq<Row>, i: nat)
    requires IsPageInput(s, rows) && i < |rows|
    ensures NewestOf(s, rows[i].1.nodeId, rows[i].1)
    ensures s.CommittedNode(rows[i].1.nodeId) && rows[i].0 == Committed(s).nodes[rows[i].1.nodeId]
  {
    var latest: seq<ResultRow> :| LatestAnswer(Committed(s), latest) && Joins(Committed(s), latest, rows);
    LatestIsNewest(Committed(s), latest, i);
  }

  /** No two of them are of one node. */
  lemma {:induction false} RowsDiffer(s: Sys, rows: seq<Row>, i: nat, j: nat)
    requires IsPageInput(s, rows) && i < |rows| && j < |rows| && rows[i].1.nodeId == rows[j].1.nodeId
    ensures i == j
  {
    var latest: seq<ResultRow> :| LatestAnswer(Committed(s), latest) && Joins(Committed(s), latest, rows);
    assert Increasing(latest) by { LatestIsNewestPerNode(Committed(s), latest); }
  }

  /** And a node with results has one. */
  lemma {:induction false} NodeHasRow(s: Sys, rows: seq<Row>, q: ResultRow)
    requires IsPageInput(s, rows) && q in s.results
    ensures HasNodeRow(rows, q.nodeId)
  {
    var latest: seq<ResultRow> :| LatestAnswer(Committed(s), latest) && Joins(Committed(s), latest, rows);
    assert Tops(latest, q) by { LatestIsNewestPerNode(Committed(s), latest); }
    var i :| 0 <= i < |latest| && latest[i].nodeId == q.nodeId && latest[i].m.ts >= q.m.ts;
    assert rows[i].1.nodeId == q.nodeId;
  }

  /** A list says of a node what its row says. */
  lemma {:induction false} ListSaysRow(s: Sys, list: seq<Row>, i: nat)
    requires IsPageInput(s, list) && i < |list|
    ensures ListSaysUp(list, list[i].1.nodeId) <==> IsUp(list[i].1.m)
  {
    assert ListNodes(list)[i].up <==> IsUp(list[i].1.m);
    if ListSaysUp(list, list[i].1.nodeId) {
      var j :| 0 <= j < |list| && list[j].1.nodeId == list[i].1.nodeId && ListNodes(list)[j].up;
      RowsDiffer(s, list, i, j);
    }
  }

  /** A page says of a node what a list made from the same answer says. */
  lemma {:induction false} PageSaysRow(d: Deployment, steps: seq<Step>, rows: seq<Row>, now: int, fmt: Numbers, id: nat)
    requires d.Valid() && Exec(d, steps).Some? && IsPageInput(Exec(d, steps).value, rows) && fmt.AllOneLine()
    requires Exec(d, steps).value.CommittedNode(id)
    ensures PageSaysUp(Exec(d, steps).value, rows, now, fmt, id) <==> ListSaysUp(rows, id)
  {
    var s := Exec(d, steps).value;
    ShowsIff(NodeUp, rows, now, fmt, NodeLabels(Committed(s).nodes[id]), "1");
    if HasRow(NodeUp, rows, now, fmt, NodeLabels(Committed(s).nodes[id]), "1") {
      PageRowListed(d, steps, rows, now, fmt, id);
    }
    if ListSaysUp(rows, id) {
      var i :| 0 <= i < |rows| && rows[i].1.nodeId == id && ListNodes(rows)[i].up;
      RowIsNewest(s, rows, i);
    }
  }

  lemma {:induction false} PageRowListed(d: Deployment, steps: seq<Step>, rows: seq<Row>, now: int, fmt: Numbers,
                                         id: nat)
    requires d.Valid() && Exec(d, steps).Some? && IsPageInput(Exec(d, steps).value, rows)
    requires Exec(d, steps).value.CommittedNode(id)
    requires HasRow(NodeUp, rows, now, fmt, NodeLabels(Committed(Exec(d, steps).value).nodes[id]), "1")
    ensures ListSaysUp(rows, id)
  {
    var s := Exec(d, steps).value;
    var j :| 0 <= j < |rows| && NodeLabels(rows[j].0) == NodeLabels(Committed(s).nodes[id])
      && Value(NodeUp, rows[j].1.m, now, fmt) == Some("1");
    assert "0" != "1";
    RowIsNewest(s, rows, j);
    SameNode(d, steps, rows[j].1.nodeId, id);
    assert ListNodes(rows)[j].up;
  }

  /** Labels tell nodes apart. */
  lemma {:induction false} SameNode(d: Deployment, steps: seq<Step>, a: nat, b: nat)
    requires d.Valid() && Exec(d, steps).Some?
    requires Exec(d, steps).value.CommittedNode(a) && Exec(d, steps).value.CommittedNode(b)
    requires var nodes := Committed(Exec(d, steps).value).nodes; NodeLabels(nodes[a]) == NodeLabels(nodes[b])
    ensures a == b
  {
    var s := Exec(d, steps).value;
    LabelsNameTheNode(Committed(s).nodes[a], Committed(s).nodes[b]);
    NodesAreNamedOnce(d, steps);
  }

  /** Two answers say the same of a node whose newest results agree. */
  lemma {:induction false} AnswersAgree(s: Sys, list: seq<Row>, rows: seq<Row>, id: nat)
    requires IsPageInput(s, list) && IsPageInput(s, rows) && NewestAgree(s, id) && ListSaysUp(list, id)
    ensures ListSaysUp(rows, id)
  {
    var i :| 0 <= i < |list| && list[i].1.nodeId == id && ListNodes(list)[i].up;
    RowIsNewest(s, list, i);
    ListSaysRow(s, list, i);
    NodeHasRow(s, rows, list[i].1);
    var j :| 0 <= j < |rows| && rows[j].1.nodeId == id;
    RowIsNewest(s, rows, j);
    ListSaysRow(s, rows, j);
  }

  lemma {:induction false} AgreeWhenNewestDo(d: Deployment, steps: seq<Step>, now: int, fmt: Numbers, id: nat)
    requires d.Valid() && Exec(d, steps).Some? && fmt.AllOneLine()
    requires Exec(d, steps).value.CommittedNode(id) && NewestAgree(Exec(d, steps).value, id)
    ensures AlwaysAgree(Exec(d, steps).value, now, fmt, id)
  {
    var s := Exec(d, steps).value;
    forall list: seq<Row>, rows: seq<Row> | IsPageInput(s, list) && IsPageInput(s, rows)
      ensures ListSaysUp(list, id) <==> PageSaysUp(s, rows, now, fmt, id)
    {
      PageSaysRow(d, steps, rows, now, fmt, id);
      if ListSaysUp(list, id) { AnswersAgree(s, list, rows, id); }
      if ListSaysUp(rows, id) { AnswersAgree(s, rows, list, id); }
    }
  }

  /** For any newest result of a node there is an answer that says of it what that result says. */
  lemma {:induction false} AnswerSaying(d: Deployment, steps: seq<Step>, q: ResultRow) returns (list: seq<Row>)
    requires d.Valid() && Exec(d, steps).Some? && NewestOf(Exec(d, steps).value, q.nodeId, q)
    ensures IsPageInput(Exec(d, steps).value, list) && (ListSaysUp(list, q.nodeId) <==> IsUp(q.m))
  {
    var latest := AnyNewestCanBeLatest(Committed(Exec(d, steps).value), q);
    list := JoinedInput(d, steps, latest);
    var i :| 0 <= i < |latest| && latest[i] == q;
    ListSaysRow(Exec(d, steps).value, list, i);
  }

  lemma {:induction false} NewestDoWhenAgree(d: Deployment, steps: seq<Step>, now: int, fmt: Numbers, id: nat)
    requires d.Valid() && Exec(d, steps).Some? && fmt.AllOneLine()
    requires Exec(d, steps).value.CommittedNode(id) && AlwaysAgree(Exec(d, steps).value, now, fmt, id)
    ensures NewestAgree(Exec(d, steps).value, id)
  {
    var s := Exec(d, steps).value;
    forall q, r | NewestOf(s, id, q) && NewestOf(s, id, r) ensures IsUp(q.m) <==> IsUp(r.m) {
      var list := AnswerSaying(d, steps, q);
      var rows := AnswerSaying(d, steps, r);
      PageSaysRow(d, steps, rows, now, fmt, id);
    }
  }

  /** `/v1/nodes` and `/metrics`, asked of one reachable store, are sure to agree on a node
      exactly if its newest results have one verdict: the query that each of them runs may
      pick any of several results of one time. */
  lemma {:induction false} ListAgreesWithPageIff(d: Deployment, steps: seq<Step>, now: int, fmt: Numbers, id: nat)
    requires d.Valid() && Exec(d, steps).Some? && fmt.AllOneLine() && Exec(d, steps).value.CommittedNode(id)
    ensures AlwaysAgree(Exec(d, steps).value, now, fmt, id) <==> NewestAgree(Exec(d, steps).value, id)
  {
    if NewestAgree(Exec(d, steps).value, id) {
      AgreeWhenNewestDo(d, steps, now, fmt, id);
    }
    if AlwaysAgree(Exec(d, steps).value, now, fmt, id) {
      NewestDoWhenAgree(d, steps, now, fmt, id);
    }
  }
}
