/** The batch that nodecheck posts, from the results it has. */
module PushPayload {
  import opened Base
  import opened Schema
  import opened Probe
  import Config
  import Probers
  import WgSession

  /** The phase that broke. A nil pointer counts as a failure of its phase. */
  function FailedPhaseOf(r: Result): Option<FailedPhase> {
    if r.tcpOk.None? || !r.tcpOk.value then Some(TcpPhase)
    else if r.tlsOk.None? || !r.tlsOk.value then Some(TlsPhase)
    else None
  }

  predicate Pushable(r: Result) { r.tcpOk.Some? && r.tlsOk.Some? }

  /** An empty string is left out of the JSON, which the server reads as absent. */
  function OrAbsent(s: string): Option<string> { if s == "" then None else Some(s) }

  function EntryFor(r: Result): ResultIn
    requires Pushable(r)
  {
    ResultIn(
      NodeRef(r.target.name, r.target.addr, r.target.sni, OrAbsent(r.target.provider)),
      Measurement(r.timestamp, r.tcpOk.value, r.tlsOk.value,
        if r.tlsOk.value && r.tlsTime.Some? then Some(r.tlsTime.value * 1000.0) else None,
        OrAbsent(r.error), FailedPhaseOf(r)))
  }

  function EntriesFor(rs: seq<Result>): seq<ResultIn> {
    if |rs| == 0 then []
    else EntriesFor(rs[..|rs| - 1]) + if Pushable(rs[|rs| - 1]) then [EntryFor(rs[|rs| - 1])] else []
  }

  /** The entry of a result, field by field: the node as it was probed, the booleans, the time
      of a passed handshake in milliseconds, and what is wrong if anything is. */
  predicate Describes(e: ResultIn, r: Result) {
    && e.node.name == r.target.name && e.node.addr == r.target.addr && e.node.sni == r.target.sni
    && (e.node.provider.None? <==> r.target.provider == "")
    && (e.node.provider.Some? ==> e.node.provider.value == r.target.provider)
    && e.m.ts == r.timestamp && Some(e.m.tcpOk) == r.tcpOk && Some(e.m.tlsOk) == r.tlsOk
    && (e.m.latencyMs.Some? <==> e.m.tlsOk && r.tlsTime.Some?)
    && (e.m.latencyMs.Some? ==> e.m.latencyMs.value / 1000.0 == r.tlsTime.value)
    && (e.m.error.None? <==> r.error == "") && (e.m.error.Some? ==> e.m.error.value == r.error)
    && (e.m.failedPhase == Some(TcpPhase) <==> !e.m.tcpOk)
    && (e.m.failedPhase == Some(TlsPhase) <==> e.m.tcpOk && !e.m.tlsOk)
  }

  /** The results with both phases. */
  function PushedOf(rs: seq<Result>): seq<Result> {
    if |rs| == 0 then []
    else
      var r := rs[|rs| - 1];
      PushedOf(rs[..|rs| - 1]) + if r.tcpOk.Some? && r.tlsOk.Some? then [r] else []
  }

  lemma {:induction false} EntriesDescribe(rs: seq<Result>)
    ensures |EntriesFor(rs)| == |PushedOf(rs)|
    ensures forall i :: 0 <= i < |EntriesFor(rs)| ==> Describes(EntriesFor(rs)[i], PushedOf(rs)[i])
  {
    if |rs| > 0 {
      EntriesDescribe(rs[..|rs| - 1]);
      if Pushable(rs[|rs| - 1]) {
        EntryDescribes(rs[|rs| - 1]);
      }
    }
  }

  lemma {:induction false} EntryDescribes(r: Result)
    requires Pushable(r)
    ensures Describes(EntryFor(r), r)
  {
    if r.tlsTime.Some? {
      assert r.tlsTime.value * 1000.0 / 1000.0 == r.tlsTime.value;
    }
  }

  method BuildPayload(runId: RunId, source: string, startedAt: int, results: seq<Result>) returns (p: RunIn)
    ensures p == RunIn(runId, source, startedAt, EntriesFor(results))
    ensures p.runId == runId && p.source == source && p.startedAt == startedAt
    ensures |p.results| == |PushedOf(results)|
    ensures forall i :: 0 <= i < |p.results| ==> Describes(p.results[i], PushedOf(results)[i])
  {
    var out: seq<ResultIn> := [];
    for i := 0 to |results|
      invariant out == EntriesFor(results[..i])
    {
      var r := results[i];
      assert results[..i + 1][..i] == results[..i];
      if !Pushable(r) { continue; }
      var m := Measurement(r.timestamp, r.tcpOk.value, r.tlsOk.value, None, OrAbsent(r.error), FailedPhaseOf(r));
      if r.tlsOk.value && r.tlsTime.Some? {
        m := m.(latencyMs := Some(r.tlsTime.value * 1000.0));
      }
      out := out + [ResultIn(NodeRef(r.target.name, r.target.addr, r.target.sni, OrAbsent(r.target.provider)), m)];
    }
    assert results[..|results|] == results;
    EntriesDescribe(results);
    p := RunIn(runId, source, startedAt, out);
  }

  // ---- what the batch says ----

  /** The CASE of the backfill, and the rule that nodecheck applies. */
  function Classify(tcpOk: bool, tlsOk: bool): Option<FailedPhase> {
    if !tcpOk then Some(TcpPhase) else if !tlsOk then Some(TlsPhase) else None
  }

  /** A measurement tells one story: a latency exactly when TLS passed, TLS only after TCP,
      an error exactly when something failed, and the phase that failed. */
  predicate Coherent(m: Measurement) {
    && (m.latencyMs.Some? <==> m.tlsOk)
    && (m.tlsOk ==> m.tcpOk)
    && (m.error.None? <==> m.tcpOk && m.tlsOk)
    && m.failedPhase == Classify(m.tcpOk, m.tlsOk)
  }

  /** A result that some probe of some target produced, stamped with a time. */
  ghost predicate FromProbe(h: Config.Host, r: Result) {
    exists t: Target, w: Probers.World, ts: int ::
      Probers.Covers(w) && r == Probers.ProbeTarget(h, t, w).(timestamp := ts)
  }

  /** Of all probes only those of the TLS prober can be pushed. */
  lemma {:induction false} OnlyTlsIsPushable(h: Config.Host, t: Target, w: Probers.World)
    requires Probers.Covers(w)
    ensures Pushable(Probers.ProbeTarget(h, t, w)) <==> Config.ProberFor(t.proto) == Ok(Config.Tls)
  {
    match Config.ProberFor(t.proto)
    case Fail(_) =>
    case Ok(kind) =>
      var o := Probers.OutcomeOf(h, kind, t, w);
      if kind.Tls? {
        assert o.phases[0].name == PHASE_TCP;
      } else {
        UdpPhaseNames(h, kind, t, w);
      }
  }

  lemma {:induction false} UdpPhaseNames(h: Config.Host, kind: Config.Kind, t: Target, w: Probers.World)
    requires Probers.Covers(w) && !kind.Tls?
    ensures !UsesLegacyPhases(Probers.OutcomeOf(h, kind, t, w).phases)
  {
    var ps := Probers.OutcomeOf(h, kind, t, w).phases;
    var names := [WgSession.PHASE_UDP_SEND, Probers.PHASE_RESPONSE, WgSession.PHASE_HANDSHAKE,
                  WgSession.PHASE_INITIATION_SENT];
    assert forall i :: 0 <= i < |ps| ==> ps[i].name in names;
    forall n | n in names
      ensures n != PHASE_TCP && n != PHASE_TLS
    {
      assert n[0] != 't';
    }
  }

  /** Whatever is pushed of a probe is coherent. */
  lemma {:induction false} PushedIsCoherent(h: Config.Host, r: Result)
    requires FromProbe(h, r) && Pushable(r)
    ensures Coherent(EntryFor(r).m)
  {
    var t: Target, w: Probers.World, ts: int :|
      Probers.Covers(w) && r == Probers.ProbeTarget(h, t, w).(timestamp := ts);
    assert Pushable(Probers.ProbeTarget(h, t, w));
    OnlyTlsIsPushable(h, t, w);
    TlsStory(h, t, w.tls);
  }

  /** One verdict of a TLS probe, however it is written down. */
  lemma {:induction false} TlsStory(h: Config.Host, t: Target, net: Probers.TlsNet)
    ensures var r := Project(t, Probers.TlsOutcome(h, t, net));
      && Pushable(r) && r.tlsTime == Some(if net.dialErr.None? then net.tlsTook as real / 1_000_000_000.0 else 0.0)
      && r.tcpTime == Some(net.tcpTook as real / 1_000_000_000.0)
      && (r.tlsOk.value ==> r.tcpOk.value)
      && (r.ok <==> r.tcpOk.value && r.tlsOk.value)
      && (r.ok <==> r.error == "")
      && (r.ok <==> FailedPhaseOf(r).None?)
      && (FailedPhaseOf(r) == Some(TcpPhase) <==> net.dialErr.Some?)
      && (FailedPhaseOf(r) == Some(TcpPhase) ==> r.error == "tcp" + ": " + net.dialErr.value)
      && (FailedPhaseOf(r) == Some(TlsPhase) ==> r.error == "tls" + ": " + Probers.TlsError(net).value)
  {
    var o := Probers.TlsOutcome(h, t, net);
    var ps := o.phases;
    assert ps[0].name == PHASE_TCP;
    if |ps| == 2 {
      assert ps[1].name == PHASE_TLS && PHASE_TLS != PHASE_TCP by { assert PHASE_TLS[1] != PHASE_TCP[1]; }
      assert ps[..1] == [ps[0]] && ps[1..] == [ps[1]];
      assert LastNamed(ps, PHASE_TLS) == Some(ps[1]);
      assert LastNamed(ps, PHASE_TCP) == LastNamed(ps[..1], PHASE_TCP) == Some(ps[0]);
      assert FirstFailed(ps) == FirstFailed(ps[1..]);
      assert FirstFailed(ps[1..]) == if ps[1].ok then FirstFailed(ps[1..][1..]) else Some(ps[1]);
    } else {
      assert ps[..0] == [];
      assert PHASE_TLS != PHASE_TCP by { assert PHASE_TLS[1] != PHASE_TCP[1]; }
      assert LastNamed(ps, PHASE_TLS) == LastNamed(ps[..0], PHASE_TLS) == None;
      assert LastNamed(ps, PHASE_TCP) == Some(ps[0]);
    }
  }

  /** Every entry of a payload is a pushable result's own. */
  lemma {:induction false} EntriesComeFromResults(rs: seq<Result>, i: nat)
    requires i < |EntriesFor(rs)|
    ensures exists j :: 0 <= j < |rs| && Pushable(rs[j]) && EntriesFor(rs)[i] == EntryFor(rs[j])
  {
    var n := |rs| - 1;
    if i < |EntriesFor(rs[..n])| {
      EntriesComeFromResults(rs[..n], i);
      var j :| 0 <= j < n && Pushable(rs[..n][j]) && EntriesFor(rs[..n])[i] == EntryFor(rs[..n][j]);
      assert rs[j] == rs[..n][j];
    } else {
      assert EntriesFor(rs)[i] == EntryFor(rs[n]);
    }
  }

  /** A run of which nothing can be pushed makes an empty batch, and no other run does. The
      schema refuses it: a fleet without TLS targets is never stored. */
  lemma {:induction false} NothingPushableIsRefused(rs: seq<Result>, runId: RunId, source: string, startedAt: int)
    ensures EntriesFor(rs) == [] <==> forall j :: 0 <= j < |rs| ==> !Pushable(rs[j])
    ensures (forall j :: 0 <= j < |rs| ==> !Pushable(rs[j])) ==>
      !ValidRun(RunIn(runId, source, startedAt, EntriesFor(rs)))
  {
    if |rs| > 0 {
      var n := |rs| - 1;
      NothingPushableIsRefused(rs[..n], runId, source, startedAt);
      if EntriesFor(rs) == [] {
        forall j | 0 <= j < |rs| ensures !Pushable(rs[j]) {
          assert j < n ==> !Pushable(rs[..n][j]);
        }
      }
    }
  }

  /** The whole payload of one run is coherent. */
  lemma {:induction false} PayloadIsCoherent(h: Config.Host, rs: seq<Result>)
    requires forall j :: 0 <= j < |rs| ==> FromProbe(h, rs[j])
    ensures forall i :: 0 <= i < |EntriesFor(rs)| ==> Coherent(EntriesFor(rs)[i].m)
  {
    forall i | 0 <= i < |EntriesFor(rs)| ensures Coherent(EntriesFor(rs)[i].m) {
      EntriesComeFromResults(rs, i);
      var j :| 0 <= j < |rs| && Pushable(rs[j]) && EntriesFor(rs)[i] == EntryFor(rs[j]);
      PushedIsCoherent(h, rs[j]);
    }
  }
}
