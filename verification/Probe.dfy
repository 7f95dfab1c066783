/** What a probe returns, and its projection onto the report that nodecheck prints. */
module Probe {
  import opened Base

  const PHASE_TCP := "tcp"
  const PHASE_TLS := "tls"

  /** Durations are in nanoseconds. */
  datatype Phase = Phase(name: string, ok: bool, duration: int, err: string)

  datatype TlsInfo = TlsInfo(serverName: string, version: string, alpn: string, certCn: string, certMatch: bool)

  datatype Outcome = Outcome(phases: seq<Phase>, tls: Option<TlsInfo>, noLivenessClaim: bool)

  /** `params` is raw JSON text, empty when the target has none. */
  datatype Target = Target(
    name: string, addr: string, sni: string, region: string, provider: string, proto: string, params: string)

  datatype PhaseJson = PhaseJson(name: string, ok: bool, seconds: real, error: string)

  /** A Go pointer field is an Option: None is nil. */
  datatype Result = Result(
    target: Target, ok: bool, tcpOk: Option<bool>, tlsOk: Option<bool>, timestamp: int,
    tcpTime: Option<real>, tlsTime: Option<real>, tlsVer: string, alpn: string, certCn: string,
    certMatch: Option<bool>, error: string, phases: seq<PhaseJson>, noLivenessClaim: bool)

  function Seconds(ns: int): real { ns as real / 1_000_000_000.0 }

  function FirstFailed(ps: seq<Phase>): Option<Phase> {
    if |ps| == 0 then None else if !ps[0].ok then Some(ps[0]) else FirstFailed(ps[1..])
  }

  function LastNamed(ps: seq<Phase>, name: string): Option<Phase> {
    if |ps| == 0 then None
    else if ps[|ps| - 1].name == name then Some(ps[|ps| - 1])
    else LastNamed(ps[..|ps| - 1], name)
  }

  predicate UsesLegacyPhases(ps: seq<Phase>) {
    exists i :: 0 <= i < |ps| && (ps[i].name == PHASE_TCP || ps[i].name == PHASE_TLS)
  }

  function PhaseList(ps: seq<Phase>): seq<PhaseJson> {
    seq(|ps|, i requires 0 <= i < |ps| => PhaseJson(ps[i].name, ps[i].ok, Seconds(ps[i].duration), ps[i].err))
  }

  function NewResult(t: Target): Result {
    Result(t.(params := ""), false, None, None, 0, None, None, "", "", "", None, "", [], false)
  }

  function OkOf(p: Option<Phase>): bool { p.Some? && p.value.ok }
  function TimeOf(p: Option<Phase>): real { if p.Some? then Seconds(p.value.duration) else 0.0 }

  /** The report of an outcome, field by field. */
  function Project(t: Target, o: Outcome): Result {
    var legacy := UsesLegacyPhases(o.phases);
    var tcp, tls, bad := LastNamed(o.phases, PHASE_TCP), LastNamed(o.phases, PHASE_TLS), FirstFailed(o.phases);
    var info := if o.tls.Some? then o.tls.value else TlsInfo("", "", "", "", false);
    Result(
      t.(params := "", sni := if info.serverName != "" then info.serverName else t.sni),
      bad.None? && |o.phases| > 0,
      if legacy then Some(OkOf(tcp)) else None,
      if legacy then Some(OkOf(tls)) else None,
      0,
      if legacy then Some(TimeOf(tcp)) else None,
      if legacy then Some(TimeOf(tls)) else None,
      info.version, info.alpn, info.certCn,
      if legacy then Some(info.certMatch) else None,
      if bad.Some? then bad.value.name + ": " + bad.value.err else "",
      if legacy then [] else PhaseList(o.phases),
      o.noLivenessClaim)
  }

  /** A store through a pointer, which must not be nil. */
  function Store<T>(p: Option<T>, v: T): Option<T>
    requires p.Some?
  {
    Some(v)
  }

  lemma {:induction false} LastNamedStep(ps: seq<Phase>, i: nat, name: string)
    requires i < |ps|
    ensures LastNamed(ps[..i + 1], name) == if ps[i].name == name then Some(ps[i]) else LastNamed(ps[..i], name)
  {
    assert ps[..i + 1][..i] == ps[..i];
  }

  lemma {:induction false} FirstFailedIsFirst(ps: seq<Phase>)
    ensures FirstFailed(ps).None? <==> forall i :: 0 <= i < |ps| ==> ps[i].ok
    ensures FirstFailed(ps).Some? ==> exists i :: (
      && 0 <= i < |ps| && ps[i] == FirstFailed(ps).value && !ps[i].ok
      && forall j :: 0 <= j < i ==> ps[j].ok)
  {
    if |ps| > 0 && ps[0].ok {
      FirstFailedIsFirst(ps[1..]);
      if FirstFailed(ps).Some? {
        var i :| 0 <= i < |ps[1..]| && ps[1..][i] == FirstFailed(ps[1..]).value && !ps[1..][i].ok
          && forall j :: 0 <= j < i ==> ps[1..][j].ok;
        assert ps[i + 1] == FirstFailed(ps).value;
        forall j | 0 <= j < i + 1 ensures ps[j].ok {
          assert j > 0 ==> ps[1..][j - 1].ok;
        }
      } else {
        forall i | 0 <= i < |ps| ensures ps[i].ok {
          assert i > 0 ==> ps[1..][i - 1].ok;
        }
      }
    }
  }

  /** One verdict: of any outcome with phases, the report is OK exactly when every phase
      passed, and exactly when it carries no error, whatever text a passed phase holds. */
  lemma {:induction false} OkIffNoError(t: Target, o: Outcome)
    ensures var r := Project(t, o);
      && (r.ok <==> |o.phases| > 0 && forall i :: 0 <= i < |o.phases| ==> o.phases[i].ok)
      && (|o.phases| > 0 ==> (r.ok <==> r.error == ""))
      && (r.ok ==> r.error == "")
  {
    FirstFailedIsFirst(o.phases);
  }

  /** The fields of the TCP and TLS phases are all present or all absent, and the raw
      phase list is reported in the second case only. */
  lemma {:induction false} LegacyFieldsTogether(t: Target, o: Outcome)
    ensures var r := Project(t, o);
      && (r.tcpOk.Some? <==> r.tlsOk.Some?) && (r.tcpOk.Some? <==> r.tcpTime.Some?)
      && (r.tcpOk.Some? <==> r.tlsTime.Some?) && (r.tcpOk.Some? <==> r.certMatch.Some?)
      && (r.tcpOk.Some? <==> LastNamed(o.phases, PHASE_TCP).Some? || LastNamed(o.phases, PHASE_TLS).Some?)
      && |r.phases| == if r.tcpOk.Some? then 0 else |o.phases|
  {
    LastNamedFinds(o.phases, PHASE_TCP);
    LastNamedFinds(o.phases, PHASE_TLS);
  }

  lemma {:induction false} LastNamedFinds(ps: seq<Phase>, name: string)
    ensures LastNamed(ps, name).Some? <==> exists i :: 0 <= i < |ps| && ps[i].name == name
    ensures LastNamed(ps, name).Some? ==> LastNamed(ps, name).value in ps && LastNamed(ps, name).value.name == name
  {
    if |ps| > 0 && ps[|ps| - 1].name != name {
      var n := |ps| - 1;
      LastNamedFinds(ps[..n], name);
      if LastNamed(ps[..n], name).Some? {
        var i :| 0 <= i < n && ps[..n][i].name == name;
        assert ps[i].name == name;
      } else {
        forall i | 0 <= i < |ps| ensures ps[i].name != name {
          assert i < n ==> ps[..n][i].name != name;
        }
      }
    }
  }

  // ---- what a report tells ----

  predicate Ran(ps: seq<Phase>, name: string) {
    exists i :: 0 <= i < |ps| && ps[i].name == name
  }

  predicate IsLastOf(ps: seq<Phase>, name: string, i: nat) {
    i < |ps| && ps[i].name == name && forall j :: i < j < |ps| ==> ps[j].name != name
  }

  /** The two fields of a phase tell what the last of that name came to and how long it took;
      false and zero if none ran but the fields are there. */
  predicate PhaseTells(ps: seq<Phase>, name: string, legacy: bool, ok: Option<bool>, time: Option<real>) {
    && (forall i :: 0 <= i < |ps| && IsLastOf(ps, name, i) ==>
          ok == Some(ps[i].ok) && time == Some(ps[i].duration as real / 1_000_000_000.0))
    && (legacy && !Ran(ps, name) ==> ok == Some(false) && time == Some(0.0))
    && (!legacy ==> ok.None? && time.None?)
  }

  /** If a TCP or TLS phase ran the fields of both are there; otherwise they are absent and the
      phases are told one by one. */
  predicate LegacyTells(o: Outcome, res: Result) {
    var ps := o.phases;
    var legacy := Ran(ps, "tcp") || Ran(ps, "tls");
    && PhaseTells(ps, "tcp", legacy, res.tcpOk, res.tcpTime) && PhaseTells(ps, "tls", legacy, res.tlsOk, res.tlsTime)
    && res.certMatch == (if legacy then Some(o.tls.Some? && o.tls.value.certMatch) else None)
    && |res.phases| == (if legacy then 0 else |ps|)
    && forall i :: 0 <= i < |res.phases| ==>
         && res.phases[i].name == ps[i].name && res.phases[i].ok == ps[i].ok && res.phases[i].error == ps[i].err
         && res.phases[i].seconds == ps[i].duration as real / 1_000_000_000.0
  }

  /** OK if there are phases and all passed; otherwise the error names the first that failed. */
  predicate VerdictTells(ps: seq<Phase>, res: Result) {
    && ((forall i :: 0 <= i < |ps| ==> ps[i].ok) ==> res.error == "" && (res.ok <==> |ps| > 0))
    && (forall i :: 0 <= i < |ps| && !ps[i].ok && (forall j :: 0 <= j < i ==> ps[j].ok) ==>
          !res.ok && res.error == ps[i].name + ": " + ps[i].err)
  }

  lemma {:induction false} LastNamedIsLast(ps: seq<Phase>, name: string)
    ensures LastNamed(ps, name).Some? <==> Ran(ps, name)
    ensures forall i :: 0 <= i < |ps| && IsLastOf(ps, name, i) ==> LastNamed(ps, name) == Some(ps[i])
  {
    LastNamedFinds(ps, name);
    if |ps| > 0 && ps[|ps| - 1].name != name {
      var n := |ps| - 1;
      LastNamedIsLast(ps[..n], name);
      forall i | 0 <= i < |ps| && IsLastOf(ps, name, i) ensures LastNamed(ps, name) == Some(ps[i]) {
        assert i < n && IsLastOf(ps[..n], name, i);
      }
    }
  }

  lemma {:induction false} ProjectTellsVerdict(t: Target, o: Outcome)
    ensures VerdictTells(o.phases, Project(t, o))
  {
    var ps := o.phases;
    FirstFailedIsFirst(ps);
    if FirstFailed(ps).Some? {
      var k :| 0 <= k < |ps| && ps[k] == FirstFailed(ps).value && !ps[k].ok && forall j :: 0 <= j < k ==> ps[j].ok;
      forall i | 0 <= i < |ps| && !ps[i].ok && (forall j :: 0 <= j < i ==> ps[j].ok) ensures i == k {
        assert !(i < k) && !(k < i);
      }
    }
  }

  lemma {:induction false} PhaseTold(ps: seq<Phase>, name: string, legacy: bool)
    requires Ran(ps, name) ==> legacy
    ensures var p := LastNamed(ps, name);
      PhaseTells(ps, name, legacy, if legacy then Some(OkOf(p)) else None, if legacy then Some(TimeOf(p)) else None)
  {
    LastNamedIsLast(ps, name);
  }

  lemma {:induction false} ProjectTellsLegacy(t: Target, o: Outcome)
    ensures LegacyTells(o, Project(t, o))
  {
    assert UsesLegacyPhases(o.phases) <==> Ran(o.phases, "tcp") || Ran(o.phases, "tls");
    PhaseTold(o.phases, "tcp", UsesLegacyPhases(o.phases));
    PhaseTold(o.phases, "tls", UsesLegacyPhases(o.phases));
  }

  /** What the report of any outcome says, said of the phases themselves. */
  lemma {:induction false} ProjectTells(t: Target, o: Outcome)
    ensures var res := Project(t, o);
      && LegacyTells(o, res) && VerdictTells(o.phases, res)
      && res.target.name == t.name && res.target.addr == t.addr && res.target.region == t.region
      && res.target.provider == t.provider && res.target.proto == t.proto && res.target.params == ""
      && res.target.sni == (if o.tls.Some? && o.tls.value.serverName != "" then o.tls.value.serverName else t.sni)
      && res.noLivenessClaim == o.noLivenessClaim
      && (o.tls.None? ==> res.tlsVer == "" && res.alpn == "" && res.certCn == "")
      && (o.tls.Some? ==>
            res.tlsVer == o.tls.value.version && res.alpn == o.tls.value.alpn && res.certCn == o.tls.value.certCn)
  {
    ProjectTellsLegacy(t, o);
    ProjectTellsVerdict(t, o);
  }

  method ToResult(t: Target, o: Outcome) returns (res: Result)
    ensures res == Project(t, o)
  {
    res := NewResult(t);
    res := res.(noLivenessClaim := o.noLivenessClaim);
    if UsesLegacyPhases(o.phases) {
      res := res.(tcpOk := Some(false), tlsOk := Some(false), certMatch := Some(false));
      res := res.(tcpTime := Some(0.0), tlsTime := Some(0.0));
    } else {
      for i := 0 to |o.phases|
        invariant res == NewResult(t).(noLivenessClaim := o.noLivenessClaim, phases := PhaseList(o.phases[..i]))
      {
        var ph := o.phases[i];
        res := res.(phases := res.phases + [PhaseJson(ph.name, ph.ok, Seconds(ph.duration), ph.err)]);
      }
      assert o.phases[..|o.phases|] == o.phases;
    }

    ghost var before := res;
    for i := 0 to |o.phases|
      invariant UsesLegacyPhases(o.phases) ==> res == before.(
        tcpOk := Some(OkOf(LastNamed(o.phases[..i], PHASE_TCP))),
        tcpTime := Some(TimeOf(LastNamed(o.phases[..i], PHASE_TCP))),
        tlsOk := Some(OkOf(LastNamed(o.phases[..i], PHASE_TLS))),
        tlsTime := Some(TimeOf(LastNamed(o.phases[..i], PHASE_TLS))))
      invariant !UsesLegacyPhases(o.phases) ==> res == before
    {
      var ph := o.phases[i];
      LastNamedStep(o.phases, i, PHASE_TCP);
      LastNamedStep(o.phases, i, PHASE_TLS);
      if ph.name == PHASE_TCP {
        res := res.(tcpOk := Store(res.tcpOk, ph.ok), tcpTime := Store(res.tcpTime, Seconds(ph.duration)));
      } else if ph.name == PHASE_TLS {
        res := res.(tlsOk := Store(res.tlsOk, ph.ok), tlsTime := Store(res.tlsTime, Seconds(ph.duration)));
      }
    }
    assert o.phases[..|o.phases|] == o.phases;

    if o.tls.Some? {
      if o.tls.value.serverName != "" {
        res := res.(target := res.target.(sni := o.tls.value.serverName));
      }
      res := res.(tlsVer := o.tls.value.version, alpn := o.tls.value.alpn, certCn := o.tls.value.certCn);
      if res.certMatch.Some? {
        res := res.(certMatch := Store(res.certMatch, o.tls.value.certMatch));
      }
    }

    var bad := FirstFailed(o.phases);
    if bad.Some? {
      res := res.(error := bad.value.name + ": " + bad.value.err);
    } else {
      res := res.(ok := |o.phases| > 0);
    }
  }
}
