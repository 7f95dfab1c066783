/** A store that nodecheck itself can feed, on which `/v1/nodes` and `/metrics` disagree. */
module TiedResults {
  import opened Base
  import opened Schema
  import opened Probe
  import opened PushPayload
  import opened IngestSystem
  import opened IngestInvariant
  import opened ExactlyOnce
  import opened Progress
  import opened EndToEnd
  import opened NodePage
  import Config
  import Probers
  import WgSession
  import MetricsPage
  import UdpExchange
  import Noise

  // ---- a store with one run ----

  /** When only one client ever posts, all results are of its one run, in its order. */
  lemma {:induction false} OnlyRunHolds(d: Deployment, steps: seq<Step>, r: RunId)
    requires d.Valid() && Exec(d, steps).Some? && d.pushes.Keys == {r} && Exec(d, steps).value.HasRun(r)
    ensures var s, b := Exec(d, steps).value, d.pushes[r].body;
      && |s.results| == |b.results|
      && forall i :: 0 <= i < |b.results| ==>
           && s.results[i].m == b.results[i].m
           && s.CommittedNode(s.results[i].nodeId) && s.nodes[s.results[i].nodeId].key == b.results[i].node.Key()
  {
    var s := Exec(d, steps).value;
    AtMostOnceAndWhole(d, steps);
    var pk :| s.CommittedRun(pk) && s.runs[pk].externalId == r;
    forall i | 0 <= i < |s.results| ensures s.results[i].runPk == pk {
      RowHasItsRun(d, steps, i);
    }
    RowsOfUniform(s.results, pk, pk);
    assert HoldsExactly(s, pk, d.pushes[r].body);
  }

  // ---- the probes ----

  const ANSWERING := Probers.TlsNet(None, 0, None, 0, true, Probers.Handshake("1.3", "h2", None))
  const REFUSING := Probers.TlsNet(Some("refused"), 0, None, 0, true, Probers.Handshake("", "", None))

  const TARGET := Target("n", "a:1", "s", "", "", "", "")

  lemma {:induction false} SomeWorld(tls: Probers.TlsNet) returns (w: Probers.World)
    ensures Probers.Covers(w) && w.tls == tls
  {
    var attempt := UdpExchange.Attempt(None, 0, None, UdpExchange.ReadFailed("", true), 0, false, 0);
    var net := UdpExchange.Env(None, None, None, 0, 0, None, seq(Config.MAX_ATTEMPTS, _ => attempt), 0);
    var texts := Probers.Texts((_: WgSession.Fault) => "", (_: Noise.BuildError) => "");
    w := Probers.World(tls, net, None, Fail(Noise.NoRandomness), texts, 1);
  }

  lemma {:induction false} ProbedTarget(h: Config.Host, net: Probers.TlsNet)
    ensures FromProbe(h, Stamped(h, TARGET, net, 0))
  {
    var w := SomeWorld(net);
    assert Config.ProberFor("") == Ok(Config.Tls);
    assert Stamped(h, TARGET, net, 0) == Probers.ProbeTarget(h, TARGET, w).(timestamp := 0);
  }

  /** Two results of one target at one time: one up, one down. */
  function BothWays(h: Config.Host): seq<Result> {
    [Stamped(h, TARGET, ANSWERING, 0), Stamped(h, TARGET, REFUSING, 0)]
  }

  lemma {:induction false} EntryOfTarget(h: Config.Host, net: Probers.TlsNet)
    ensures var r := Stamped(h, TARGET, net, 0);
      && Pushable(r) && EntryFor(r).node == NodeRef("n", "a:1", "s", None)
      && EntryFor(r).m.ts == 0 && (IsUp(EntryFor(r).m) <==> r.ok)
  {
    PushedVerdict(h, TARGET, net, 0);
    Probers.TlsIdentityIsStable(h, TARGET, net);
  }

  lemma {:induction false} BothWaysPosted(h: Config.Host)
    ensures var es := EntriesFor(BothWays(h));
      && |es| == 2 && es[0].node == es[1].node == NodeRef("n", "a:1", "s", None)
      && es[0].m.ts == es[1].m.ts == 0 && IsUp(es[0].m) && !IsUp(es[1].m)
  {
    var rs := BothWays(h);
    EntryOfTarget(h, ANSWERING);
    EntryOfTarget(h, REFUSING);
    assert rs[..1] == [rs[0]] && rs[..1][..0] == [];
    assert EntriesFor(rs[..1][..0]) == [];
    assert EntriesFor(rs[..1]) == [EntryFor(rs[0])];
    assert EntriesFor(rs) == [EntryFor(rs[0])] + [EntryFor(rs[1])];
    assert Stamped(h, TARGET, ANSWERING, 0).ok by { OkIffNoError(TARGET, Probers.TlsOutcome(h, TARGET, ANSWERING)); }
    assert !Stamped(h, TARGET, REFUSING, 0).ok by { OkIffNoError(TARGET, Probers.TlsOutcome(h, TARGET, REFUSING)); }
  }

  function OnePush(h: Config.Host): Deployment {
    Deployment("token", map["run" := Push("token", RunIn("run", "nodecheck", 0, EntriesFor(BothWays(h))))])
  }

  lemma {:induction false} OnePushIsNodechecks(h: Config.Host)
    ensures FedByNodecheck(h, OnePush(h))
  {
    ProbedTarget(h, ANSWERING);
    ProbedTarget(h, REFUSING);
    var rs := BothWays(h);
    assert forall j :: 0 <= j < |rs| ==> FromProbe(h, rs[j]);
    assert IsPayload(h, OnePush(h).pushes["run"].body);
  }

  lemma {:induction false} OnePushIsAdmitted(h: Config.Host)
    ensures OnePush(h).Admits(OnePush(h).pushes["run"])
  {
    BothWaysPosted(h);
    ShortTextsAreValid(RunIn("run", "nodecheck", 0, EntriesFor(BothWays(h))));
  }

  lemma {:induction false} ShortTextsAreValid(b: RunIn)
    requires |b.source| <= 128 && |b.results| >= 1
    requires forall i :: 0 <= i < |b.results| ==> b.results[i].node == NodeRef("n", "a:1", "s", None)
    ensures ValidRun(b)
  {
  }

  // ---- the disagreement ----

  /** One client posts two results of one node and one time, the first up and the second not. */
  ghost predicate PostsPair(d: Deployment, r: RunId) {
    && d.Valid() && d.pushes.Keys == {r} && d.Admits(d.pushes[r])
    && var es := d.pushes[r].body.results;
       && |es| == 2 && es[0].node.Key() == es[1].node.Key()
       && es[0].m.ts == es[1].m.ts && IsUp(es[0].m) && !IsUp(es[1].m)
  }

  /** The store holds just such two results. */
  predicate HoldsPair(s: Sys) {
    && |s.results| == 2 && s.results[0].nodeId == s.results[1].nodeId && s.CommittedNode(s.results[0].nodeId)
    && s.results[0].m.ts == s.results[1].m.ts && IsUp(s.results[0].m) && !IsUp(s.results[1].m)
  }

  lemma {:induction false} ReachPair(d: Deployment, r: RunId) returns (steps: seq<Step>)
    requires PostsPair(d, r)
    ensures Exec(d, steps).Some? && HoldsPair(Exec(d, steps).value)
  {
    OneMore(d, [], Send(r));
    steps := ServerCanStore(d, [] + [Send(r)], r);
    PairIsHeld(d, steps, r);
  }

  lemma {:induction false} PairIsHeld(d: Deployment, steps: seq<Step>, r: RunId)
    requires PostsPair(d, r) && Exec(d, steps).Some? && Exec(d, steps).value.HasRun(r)
    ensures HoldsPair(Exec(d, steps).value)
  {
    OnlyRunHolds(d, steps, r);
    NodesAreNamedOnce(d, steps);
  }

  lemma {:induction false} PairDisagrees(d: Deployment, steps: seq<Step>, now: int, fmt: MetricsPage.Numbers)
    returns (list: seq<MetricsPage.Row>, rows: seq<MetricsPage.Row>)
    requires d.Valid() && Exec(d, steps).Some? && HoldsPair(Exec(d, steps).value) && fmt.AllOneLine()
    ensures var s := Exec(d, steps).value; var id := s.results[0].nodeId;
      && IsPageInput(s, list) && IsPageInput(s, rows)
      && ListSaysUp(list, id) && !PageSaysUp(s, rows, now, fmt, id)
  {
    var s := Exec(d, steps).value;
    list := AnswerSaying(d, steps, s.results[0]);
    rows := AnswerSaying(d, steps, s.results[1]);
    PageSaysRow(d, steps, rows, now, fmt, s.results[0].nodeId);
  }

  lemma {:induction false} OnePushPostsPair(h: Config.Host)
    ensures PostsPair(OnePush(h), "run")
  {
    OnePushIsAdmitted(h);
    BothWaysPosted(h);
  }

  /** Two probes of one target, which the targets file may list twice, can end at one time
      with opposite verdicts. Then the store shows the node as up on `/v1/nodes` and not on
      `/metrics`, if the database picks a different one for each. */
  lemma {:induction false} TiedProbesDisagree(h: Config.Host, now: int, fmt: MetricsPage.Numbers)
    returns (d: Deployment, steps: seq<Step>, id: nat, list: seq<MetricsPage.Row>, rows: seq<MetricsPage.Row>)
    requires fmt.AllOneLine()
    ensures Config.Rejection(h, TARGET, None).None?
    ensures FedByNodecheck(h, d) && Exec(d, steps).Some? && Exec(d, steps).value.CommittedNode(id)
    ensures var s := Exec(d, steps).value;
      && IsPageInput(s, list) && IsPageInput(s, rows)
      && ListSaysUp(list, id) && !PageSaysUp(s, rows, now, fmt, id)
  {
    d := OnePush(h);
    OnePushIsNodechecks(h);
    OnePushPostsPair(h);
    steps := ReachPair(d, "run");
    id := Exec(d, steps).value.results[0].nodeId;
    list, rows := PairDisagrees(d, steps, now, fmt);
  }
}
