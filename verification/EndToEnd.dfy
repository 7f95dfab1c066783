/** From a probe to what the store shows of it, over every run of the whole system. */
module EndToEnd {
  import opened Base
  import opened Schema
  import opened Probe
  import opened PushPayload
  import opened IngestSystem
  import opened IngestInvariant
  import opened ExactlyOnce
  import Ledger
  import Config
  import Probers
  import Queries
  import MetricsPage
  import PromReport
  import Migration

  /** Every client posts what BuildPayload makes of the results of some probes. */
  ghost predicate FedByNodecheck(h: Config.Host, d: Deployment) {
    d.Valid() && forall r :: r in d.pushes ==> IsPayload(h, d.pushes[r].body)
  }

  ghost predicate IsPayload(h: Config.Host, b: RunIn) {
    exists rs: seq<Result> :: b.results == EntriesFor(rs) && forall j :: 0 <= j < |rs| ==> FromProbe(h, rs[j])
  }

  lemma {:induction false} PostedIsCoherent(h: Config.Host, b: RunIn)
    requires IsPayload(h, b)
    ensures forall i :: 0 <= i < |b.results| ==> Coherent(b.results[i].m)
  {
    var rs: seq<Result> :| b.results == EntriesFor(rs) && forall j :: 0 <= j < |rs| ==> FromProbe(h, rs[j]);
    PayloadIsCoherent(h, rs);
  }

  lemma {:induction false} RowIsUnderItsRun(rows: seq<ResultRow>, i: nat)
    requires i < |rows|
    ensures rows[i] in RowsOf(rows, rows[i].runPk)
  {
    var n := |rows| - 1;
    if i < n {
      RowIsUnderItsRun(rows[..n], i);
    }
  }

  /** Every committed result of a store that only nodecheck feeds is coherent. */
  lemma {:induction false} StoredIsCoherent(h: Config.Host, d: Deployment, steps: seq<Step>)
    requires FedByNodecheck(h, d) && Exec(d, steps).Some?
    ensures forall i :: 0 <= i < |Exec(d, steps).value.results| ==> Coherent(Exec(d, steps).value.results[i].m)
  {
    var s := Exec(d, steps).value;
    AtMostOnceAndWhole(d, steps);
    forall i | 0 <= i < |s.results| ensures Coherent(s.results[i].m) {
      RowHasItsRun(d, steps, i);
      var pk := s.results[i].runPk;
      PostedIsCoherent(h, d.pushes[s.runs[pk].externalId].body);
      HeldIsCoherent(s, pk, d.pushes[s.runs[pk].externalId].body, i);
    }
  }

  lemma {:induction false} RowHasItsRun(d: Deployment, steps: seq<Step>, i: nat)
    requires d.Valid() && Exec(d, steps).Some? && i < |Exec(d, steps).value.results|
    ensures var s := Exec(d, steps).value; s.CommittedRun(s.results[i].runPk) && s.CommittedNode(s.results[i].nodeId)
  {
    var s := Exec(d, steps).value;
    Serialisable(d, steps);
    assert RowRepresents(s, s.results[i], Ledger.Replay(Commits(d, steps)).entries[i]);
  }

  lemma {:induction false} HeldIsCoherent(s: Sys, pk: nat, b: RunIn, i: nat)
    requires i < |s.results| && s.results[i].runPk == pk && HoldsExactly(s, pk, b)
    requires forall j :: 0 <= j < |b.results| ==> Coherent(b.results[j].m)
    ensures Coherent(s.results[i].m)
  {
    RowIsUnderItsRun(s.results, i);
    var j :| 0 <= j < |RowsOf(s.results, pk)| && RowsOf(s.results, pk)[j] == s.results[i];
    assert Coherent(b.results[j].m);
  }

  /** Every committed result refers to a committed node, so the join loses nothing. */
  lemma {:induction false} SnapshotIsClosed(d: Deployment, steps: seq<Step>)
    requires d.Valid() && Exec(d, steps).Some?
    ensures Queries.Committed(Exec(d, steps).value).Closed()
  {
    var s := Exec(d, steps).value;
    forall i | 0 <= i < |s.results| ensures s.results[i].nodeId in Queries.Committed(s).nodes {
      RowHasItsRun(d, steps, i);
    }
  }

  // ---- the migration ----

  function TableOf(rows: seq<ResultRow>): seq<Migration.Row> {
    seq(|rows|, i requires 0 <= i < |rows| => Migration.StoredRow(rows[i].m, rows[i].nodeId, rows[i].runPk))
  }

  /** In a store that only nodecheck feeds every row names the phase that its booleans give. */
  lemma {:induction false} StoredIsClassified(h: Config.Host, d: Deployment, steps: seq<Step>)
    requires FedByNodecheck(h, d) && Exec(d, steps).Some?
    ensures Migration.Classified(TableOf(Exec(d, steps).value.results))
  {
    var rows := Exec(d, steps).value.results;
    StoredIsCoherent(h, d, steps);
    Migration.CoherentRowsAreClassified(seq(|rows|, i requires 0 <= i < |rows| => rows[i].m), TableOf(rows));
  }

  /** So migrating such a store down and up again restores it, in every reachable state. */
  method MigrateDownAndUp(h: Config.Host, ghost d: Deployment, ghost steps: seq<Step>,
                          table: Migration.ProbeResultTable)
    requires FedByNodecheck(h, d) && Exec(d, steps).Some?
    requires table.rows[..] == TableOf(Exec(d, steps).value.results) && table.hasFailedPhase && table.hasIndex
    modifies table, table.rows
    ensures table.rows == old(table.rows) && table.rows[..] == TableOf(Exec(d, steps).value.results)
    ensures table.hasFailedPhase && table.hasIndex
  {
    StoredIsClassified(h, d, steps);
    table.DownAndUp();
  }

  // ---- one verdict ----

  function Stamped(h: Config.Host, t: Target, net: Probers.TlsNet, ts: int): Result {
    Project(t, Probers.TlsOutcome(h, t, net)).(timestamp := ts)
  }

  /** The i-th result of the committed run `pk` is what the probe of `t` over `net` yielded. */
  predicate ReportsProbe(h: Config.Host, d: Deployment, s: Sys, pk: nat, i: nat, t: Target, net: Probers.TlsNet,
                         ts: int) {
    && s.CommittedRun(pk) && s.runs[pk].externalId in d.pushes
    && i < |d.pushes[s.runs[pk].externalId].body.results|
    && Pushable(Stamped(h, t, net, ts))
    && d.pushes[s.runs[pk].externalId].body.results[i] == EntryFor(Stamped(h, t, net, ts))
  }

  /** Where the i-th result of a committed run is stored. */
  lemma {:induction false} ReportIsStored(h: Config.Host, d: Deployment, steps: seq<Step>, pk: nat, i: nat, t: Target,
                                          net: Probers.TlsNet, ts: int)
    requires d.Valid() && Exec(d, steps).Some? && ReportsProbe(h, d, Exec(d, steps).value, pk, i, t, net, ts)
    ensures var s, rows := Exec(d, steps).value, RowsOf(Exec(d, steps).value.results, pk);
      && i < |rows| && rows[i].m == EntryFor(Stamped(h, t, net, ts)).m
      && s.CommittedNode(rows[i].nodeId) && s.nodes[rows[i].nodeId].key == NodeKey(t.addr, Probers.EffectiveSni(h, t))
  {
    var s := Exec(d, steps).value;
    AtMostOnceAndWhole(d, steps);
    assert HoldsExactly(s, pk, d.pushes[s.runs[pk].externalId].body);
    Probers.TlsIdentityIsStable(h, t, net);
  }

  lemma {:induction false} PushedVerdict(h: Config.Host, t: Target, net: Probers.TlsNet, ts: int)
    ensures var r := Stamped(h, t, net, ts);
      Pushable(r) && var m := EntryFor(r).m;
      && m.ts == ts && Some(m.tcpOk) == r.tcpOk && Some(m.tlsOk) == r.tlsOk
      && (r.ok <==> r.error == "") && (r.ok <==> m.tcpOk && m.tlsOk)
      && (r.ok <==> net.dialErr.None? && net.handshakeErr.None? && net.isTls)
      && m.latencyMs == (if r.ok then Some(net.tlsTook as real / 1_000_000.0) else None)
      && m.error == (if r.ok then None else Some(r.error))
      && m.failedPhase == (if r.ok then None else if net.dialErr.Some? then Some(TcpPhase) else Some(TlsPhase))
      && (m.failedPhase == Some(TcpPhase) ==> "tcp: " <= r.error)
      && (m.failedPhase == Some(TlsPhase) ==> "tls: " <= r.error)
  {
    TlsStory(h, t, net);
    assert "tcp" + ": " == "tcp: " && "tls" + ": " == "tls: ";
    assert net.tlsTook as real / 1_000_000_000.0 * 1000.0 == net.tlsTook as real / 1_000_000.0;
  }

  /** One verdict everywhere: of one TLS probe, whatever the network did, the report, its
      error, its sample in `vpnnode_up`, the row that a committed run stores of it, the
      entry that `/v1/nodes` makes of that row and the gauge that `/metrics` makes of it
      agree, under the address and SNI that were probed. */
  lemma {:induction false} OneVerdictEverywhere(h: Config.Host, d: Deployment, steps: seq<Step>, pk: nat, i: nat,
                                                t: Target, net: Probers.TlsNet, ts: int, fmt: PromReport.Seconds4,
                                               now: int, numbers: MetricsPage.Numbers)
    requires d.Valid() && Exec(d, steps).Some? && ReportsProbe(h, d, Exec(d, steps).value, pk, i, t, net, ts)
    ensures var r, s := Stamped(h, t, net, ts), Exec(d, steps).value;
      var nodes, rows := Queries.Committed(s).nodes, RowsOf(s.results, pk);
      && i < |rows| && rows[i].nodeId in nodes
      && (r.ok <==> r.error == "")
      && (r.ok <==> PromReport.SampleValue(PromReport.Up, r, fmt) == Some("1"))
      && (r.ok <==> MetricsPage.Value(MetricsPage.NodeUp, rows[i].m, now, numbers) == Some("1"))
      && var node := Queries.StatusOf(nodes[rows[i].nodeId], rows[i]);
      && node.addr == t.addr && node.sni == Probers.EffectiveSni(h, t) && node.ts == ts
      && node.up == r.ok && Some(node.tcpOk) == r.tcpOk && Some(node.tlsOk) == r.tlsOk
      && (r.ok <==> net.dialErr.None? && net.handshakeErr.None? && net.isTls)
      && EntryFor(r).m.latencyMs == rows[i].m.latencyMs == node.latencyMs
      && node.latencyMs == (if r.ok then Some(net.tlsTook as real / 1_000_000.0) else None)
      && node.error == (if r.ok then None else Some(r.error))
      && node.failedPhase == (if r.ok then None else if net.dialErr.Some? then Some(TcpPhase) else Some(TlsPhase))
      && (node.failedPhase == Some(TcpPhase) ==> "tcp: " <= r.error)
      && (node.failedPhase == Some(TlsPhase) ==> "tls: " <= r.error)
  {
    ReportIsStored(h, d, steps, pk, i, t, net, ts);
    PushedVerdict(h, t, net, ts);
    assert "0" != "1";
  }

  /** The i-th result of the committed run `pk` is what some probe of `t` yielded. */
  ghost predicate Reports(h: Config.Host, d: Deployment, s: Sys, pk: nat, i: nat, t: Target) {
    exists net: Probers.TlsNet, ts: int :: ReportsProbe(h, d, s, pk, i, t, net, ts)
  }

  /** One target, one node: any two results of the same TLS target, whatever their probes
      met and whichever committed runs they came in, lie under one node row. */
  lemma {:induction false} TargetKeepsItsNode(h: Config.Host, d: Deployment, steps: seq<Step>, t: Target, pk1: nat,
                                              i: nat, pk2: nat, j: nat)
    requires d.Valid() && Exec(d, steps).Some?
    requires Reports(h, d, Exec(d, steps).value, pk1, i, t) && Reports(h, d, Exec(d, steps).value, pk2, j, t)
    ensures var s := Exec(d, steps).value;
      && i < |RowsOf(s.results, pk1)| && j < |RowsOf(s.results, pk2)|
      && RowsOf(s.results, pk1)[i].nodeId == RowsOf(s.results, pk2)[j].nodeId
  {
    var s := Exec(d, steps).value;
    var net1: Probers.TlsNet, ts1: int :| ReportsProbe(h, d, s, pk1, i, t, net1, ts1);
    var net2: Probers.TlsNet, ts2: int :| ReportsProbe(h, d, s, pk2, j, t, net2, ts2);
    ReportIsStored(h, d, steps, pk1, i, t, net1, ts1);
    ReportIsStored(h, d, steps, pk2, j, t, net2, ts2);
    NodesAreNamedOnce(d, steps);
  }
}
