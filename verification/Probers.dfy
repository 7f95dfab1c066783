/** The three probers over whatever the network does, and the choice among them. */
module Probers {
  import opened Base
  import opened Probe
  import opened Bytes
  import opened Config
  import UdpExchange
  import WgSession
  import Noise
  import Tai64n

  // ---- tls ----

  datatype Leaf = Leaf(commonName: string, matchesSni: bool)
  datatype Handshake = Handshake(version: string, alpn: string, leaf: Option<Leaf>)

  /** What the two dials come to, and how long they take. */
  datatype TlsNet = TlsNet(
    dialErr: Option<string>, tcpTook: int, handshakeErr: Option<string>, tlsTook: int,
    isTls: bool, state: Handshake)

  const NOT_TLS := "unexpected connection type"

  function EffectiveSni(h: Host, t: Target): string {
    if t.sni != "" then t.sni else match h.splitHostPort(t.addr) case Some(host) => host case None => ""
  }

  function TlsError(net: TlsNet): Option<string> {
    if net.handshakeErr.Some? then net.handshakeErr else if !net.isTls then Some(NOT_TLS) else None
  }

  function TlsOutcome(h: Host, t: Target, net: TlsNet): Outcome {
    var none := TlsInfo(EffectiveSni(h, t), "", "", "", false);
    match net.dialErr
    case Some(err) => Outcome([Phase(PHASE_TCP, false, net.tcpTook, err)], Some(none), false)
    case None =>
      var tcp := Phase(PHASE_TCP, true, net.tcpTook, "");
      match TlsError(net)
      case Some(err) => Outcome([tcp, Phase(PHASE_TLS, false, net.tlsTook, err)], Some(none), false)
      case None =>
        var leaf := if net.state.leaf.Some? then net.state.leaf.value else Leaf("", false);
        var info := TlsInfo(EffectiveSni(h, t), net.state.version, net.state.alpn, leaf.commonName, leaf.matchesSni);
        Outcome([tcp, Phase(PHASE_TLS, true, net.tlsTook, "")], Some(info), false)
  }

  /** The SNI is the configured one, or the host of the address, or empty; it is reported
      whatever happens, and the rest of the handshake only when there is one. */
  method TlsProbe(h: Host, t: Target, net: TlsNet) returns (out: Outcome)
    ensures out == TlsOutcome(h, t, net)
    ensures !out.noLivenessClaim && out.tls.Some?
    ensures out.tls.value.serverName ==
      if t.sni != "" then t.sni else if h.splitHostPort(t.addr).Some? then h.splitHostPort(t.addr).value else ""
    ensures net.dialErr.Some? ==> out.phases == [Phase("tcp", false, net.tcpTook, net.dialErr.value)]
    ensures net.dialErr.None? ==> |out.phases| == 2 && out.phases[0] == Phase("tcp", true, net.tcpTook, "")
    ensures net.dialErr.None? && net.handshakeErr.Some? ==>
      out.phases[1] == Phase("tls", false, net.tlsTook, net.handshakeErr.value)
    ensures net.dialErr.None? && net.handshakeErr.None? ==>
      out.phases[1] == Phase("tls", net.isTls, net.tlsTook, if net.isTls then "" else "unexpected connection type")
    ensures var info, done := out.tls.value, net.dialErr.None? && net.handshakeErr.None? && net.isTls;
      && info.version == (if done then net.state.version else "") && info.alpn == (if done then net.state.alpn else "")
      && info.certCn == (if done && net.state.leaf.Some? then net.state.leaf.value.commonName else "")
      && (info.certMatch <==> done && net.state.leaf.Some? && net.state.leaf.value.matchesSni)
  {
    var phases := [];
    var sni := t.sni;
    if sni == "" {
      var host := h.splitHostPort(t.addr);
      if host.Some? { sni := host.value; }
    }
    var info := TlsInfo(sni, "", "", "", false);

    var tcpPhase := Phase(PHASE_TCP, false, net.tcpTook, "");
    if net.dialErr.Some? {
      tcpPhase := tcpPhase.(err := net.dialErr.value);
      phases := phases + [tcpPhase];
      return Outcome(phases, Some(info), false);
    }
    tcpPhase := tcpPhase.(ok := true);
    phases := phases + [tcpPhase];

    var tlsPhase := Phase(PHASE_TLS, false, net.tlsTook, "");
    if net.handshakeErr.Some? {
      tlsPhase := tlsPhase.(err := net.handshakeErr.value);
      phases := phases + [tlsPhase];
      return Outcome(phases, Some(info), false);
    }
    if !net.isTls {
      tlsPhase := tlsPhase.(err := NOT_TLS);
      phases := phases + [tlsPhase];
      return Outcome(phases, Some(info), false);
    }
    info := info.(version := net.state.version, alpn := net.state.alpn);
    if net.state.leaf.Some? {
      info := info.(certCn := net.state.leaf.value.commonName, certMatch := net.state.leaf.value.matchesSni);
    }
    tlsPhase := tlsPhase.(ok := true);
    phases := phases + [tlsPhase];
    return Outcome(phases, Some(info), false);
  }

  // ---- udp ----

  /** A socket for any number of attempts that a target may ask for. */
  predicate CoversAttempts(net: UdpExchange.Env) { |net.attempts| == Config.MAX_ATTEMPTS }

  function For(net: UdpExchange.Env, attempts: nat): UdpExchange.Env
    requires attempts <= |net.attempts|
  {
    net.(attempts := net.attempts[..attempts])
  }

  function SetupFailed(err: string, noLiveness: bool): Outcome {
    Outcome([Phase(WgSession.PHASE_UDP_SEND, false, 0, err)], None, noLiveness)
  }

  const PHASE_RESPONSE := "response"

  /** Attempt `i` read some datagram. */
  predicate ReadsAny(e: UdpExchange.Env, i: nat)
    requires i < |e.attempts|
  {
    UdpExchange.Wrote(e, i) && e.attempts[i].deadlineErr.None? && e.attempts[i].read.Datagram?
  }

  /** Attempt `i` is made and reads some datagram. */
  predicate MadeRead(e: UdpExchange.Env, timeout: int, i: nat)
    requires i < |e.attempts|
  {
    UdpExchange.Made(e, timeout, i) && ReadsAny(e, i)
  }

  function BareExchange(cfg: UdpConfig): UdpExchange.Exchange {
    UdpExchange.Exchange(cfg.payload, cfg.attempts, WgSession.PHASE_UDP_SEND, PHASE_RESPONSE, None, false)
  }

  function UdpOutcome(h: Host, t: Target, net: UdpExchange.Env, timeout: int): Outcome
    requires CoversAttempts(net)
  {
    match ParseUdpParams(h, t.params)
    case Fail(e) => SetupFailed(h.text(e), false)
    case Ok(cfg) => Outcome(UdpExchange.Phases(BareExchange(cfg), For(net, cfg.attempts), timeout), None, false)
  }

  /** The prober, from settings to phases. Any datagram is an answer, silence is none, and
      what is sent is the payload of the settings, at most as often as they ask for. */
  method UdpProbe(h: Host, t: Target, net: UdpExchange.Env, timeout: int) returns (out: Outcome, sent: seq<bytes>)
    requires CoversAttempts(net)
    ensures out == UdpOutcome(h, t, net, timeout)
    ensures !out.noLivenessClaim && out.tls.None? && |out.phases| >= 1 && out.phases[0].name == "udp"
    ensures ParseUdpParams(h, t.params).Fail? ==> |out.phases| == 1 && !out.phases[0].ok && sent == []
    ensures ParseUdpParams(h, t.params).Ok? ==>
      var cfg := ParseUdpParams(h, t.params).value;
      var e := For(net, cfg.attempts);
      && |sent| <= cfg.attempts && (forall d :: d in sent ==> d == cfg.payload)
      && (out.phases[0].ok <==> e.dialErr.None? && e.setupErr.None? && e.writeErr.None?)
      && (out.phases[0].ok ==>
            && |out.phases| == 2 && out.phases[1].name == "response"
            && (out.phases[1].ok <==> exists i :: 0 <= i < cfg.attempts && MadeRead(e, timeout, i)))
  {
    var phases: seq<Phase> := [];
    sent := [];
    var cfg := ParseUdpParams(h, t.params);
    if cfg.Fail? {
      phases := phases + [Phase(WgSession.PHASE_UDP_SEND, false, 0, h.text(cfg.error))];
      return Outcome(phases, None, false), sent;
    }
    var reply, deadlines;
    var e := For(net, cfg.value.attempts);
    phases, reply, sent, deadlines := UdpExchange.Run(BareExchange(cfg.value), e, timeout);
    out := Outcome(phases, None, false);
    BarePasses(cfg.value, e, timeout);
  }

  lemma {:induction false} BarePasses(cfg: UdpConfig, e: UdpExchange.Env, timeout: int)
    ensures UdpExchange.PassesOn(BareExchange(cfg), e, timeout) <==>
      exists i :: 0 <= i < |e.attempts| && MadeRead(e, timeout, i)
  {
    var x := BareExchange(cfg);
    forall i | 0 <= i < |e.attempts| ensures UdpExchange.Answered(x, e, i) <==> ReadsAny(e, i) {}
    if UdpExchange.PassesOn(x, e, timeout) {
      var i :| 0 <= i < |e.attempts| && UdpExchange.Made(e, timeout, i) && UdpExchange.Answered(x, e, i);
      assert MadeRead(e, timeout, i);
    }
    if i :| 0 <= i < |e.attempts| && MadeRead(e, timeout, i) {
      assert UdpExchange.Made(e, timeout, i) && UdpExchange.Answered(x, e, i);
    }
  }

  // ---- wireguard ----

  datatype Texts = Texts(fault: WgSession.Fault -> string, build: Noise.BuildError -> string)

  function WgExchange(cfg: WgConfig, m: Noise.Initiation, texts: Texts): UdpExchange.Exchange {
    if cfg.anonymous then WgSession.Anonymous(m.packet, m.senderIndex, cfg.attempts, texts.fault)
    else WgSession.Strict(m.packet, m.senderIndex, cfg.attempts, texts.fault)
  }

  /** Attempt `i` read a handshake response to `packet`. */
  predicate ReadsEcho(packet: bytes, e: UdpExchange.Env, i: nat)
    requires i < |e.attempts| && |packet| >= 8
  {
    && ReadsAny(e, i)
    && var r := UdpExchange.Cut(e.attempts[i].read.data); |r| == 92 && r[0] == 2 && r[8..12] == packet[4..8]
  }

  /** Attempt `i` read a cookie reply. */
  predicate ReadsCookie(e: UdpExchange.Env, i: nat)
    requires i < |e.attempts|
  {
    ReadsAny(e, i) && var r := UdpExchange.Cut(e.attempts[i].read.data); |r| == 64 && r[0] == 3
  }

  /** Nothing but timeouts. */
  predicate OnlyTimeouts(e: UdpExchange.Env) {
    forall i :: 0 <= i < |e.attempts| ==>
      && UdpExchange.Wrote(e, i) && e.attempts[i].deadlineErr.None?
      && e.attempts[i].read.ReadFailed? && e.attempts[i].read.timeout && !e.attempts[i].cancelled
  }

  lemma {:induction false} ModesAnswer(cfg: WgConfig, m: Noise.Initiation, texts: Texts, e: UdpExchange.Env, i: nat)
    requires i < |e.attempts|
    requires |m.packet| >= 8 && m.senderIndex < Pow256(4) && m.packet[4..8] == LittleEndian(m.senderIndex, 4)
    ensures UdpExchange.Answered(WgExchange(cfg, m, texts), e, i) <==>
      ReadsEcho(m.packet, e, i) || (cfg.anonymous && ReadsCookie(e, i))
  {
    if e.attempts[i].read.Datagram? {
      WgSession.ModesAccept(m.packet, m.senderIndex, cfg.attempts, texts.fault,
        UdpExchange.Cut(e.attempts[i].read.data));
    }
  }

  /** Attempt `i` is made and reads our response. */
  predicate MadeEcho(packet: bytes, e: UdpExchange.Env, timeout: int, i: nat)
    requires i < |e.attempts| && |packet| >= 8
  {
    UdpExchange.Made(e, timeout, i) && ReadsEcho(packet, e, i)
  }

  /** Attempt `i` is made and reads a cookie reply, or is the end of a silence. */
  predicate MadeCookieOrEnd(e: UdpExchange.Env, timeout: int, i: nat)
    requires i < |e.attempts|
  {
    UdpExchange.Made(e, timeout, i) && (ReadsCookie(e, i) || UdpExchange.GaveUp(e, timeout, i))
  }

  /** Strict: a response to our packet is read. Anonymous: that, a cookie reply or silence. */
  predicate WgPasses(packet: bytes, anonymous: bool, e: UdpExchange.Env, timeout: int)
    requires |packet| >= 8
  {
    || (exists i :: 0 <= i < |e.attempts| && MadeEcho(packet, e, timeout, i))
    || (anonymous && exists i :: 0 <= i < |e.attempts| && MadeCookieOrEnd(e, timeout, i))
  }

  lemma {:induction false} WgPassesAre(cfg: WgConfig, m: Noise.Initiation, texts: Texts, e: UdpExchange.Env,
                                       timeout: int)
    requires |m.packet| >= 8 && m.senderIndex < Pow256(4) && m.packet[4..8] == LittleEndian(m.senderIndex, 4)
    ensures UdpExchange.PassesOn(WgExchange(cfg, m, texts), e, timeout) <==>
      WgPasses(m.packet, cfg.anonymous, e, timeout)
  {
    var x := WgExchange(cfg, m, texts);
    forall i | 0 <= i < |e.attempts|
      ensures UdpExchange.Answered(x, e, i) <==> ReadsEcho(m.packet, e, i) || (cfg.anonymous && ReadsCookie(e, i))
    {
      ModesAnswer(cfg, m, texts, e, i);
    }
    if UdpExchange.PassesOn(x, e, timeout) {
      if i :| 0 <= i < |e.attempts| && UdpExchange.Made(e, timeout, i) && UdpExchange.Answered(x, e, i) {
        assert MadeEcho(m.packet, e, timeout, i) || MadeCookieOrEnd(e, timeout, i);
      } else {
        var i :| 0 <= i < |e.attempts| && UdpExchange.Made(e, timeout, i) && UdpExchange.GaveUp(e, timeout, i);
        assert MadeCookieOrEnd(e, timeout, i);
      }
    }
    if WgPasses(m.packet, cfg.anonymous, e, timeout) {
      if i :| 0 <= i < |e.attempts| && MadeEcho(m.packet, e, timeout, i) {
        assert UdpExchange.Made(e, timeout, i) && UdpExchange.Answered(x, e, i);
      } else {
        var i :| 0 <= i < |e.attempts| && MadeCookieOrEnd(e, timeout, i);
        assert UdpExchange.Made(e, timeout, i) && (UdpExchange.Answered(x, e, i) || UdpExchange.GaveUp(e, timeout, i));
      }
    }
  }

  /** Of nothing but timeouts the first that ends the loop is the end of a silence. */
  lemma {:induction false} SilenceDecides(packet: bytes, anonymous: bool, e: UdpExchange.Env, timeout: int)
    requires |packet| >= 8 && OnlyTimeouts(e) && |e.attempts| > 0
    ensures WgPasses(packet, anonymous, e, timeout) <==> anonymous
  {
    var i := FirstEnd(e, timeout, 0);
    assert MadeCookieOrEnd(e, timeout, i);
  }

  lemma {:induction false} FirstEnd(e: UdpExchange.Env, timeout: int, from: nat) returns (i: nat)
    requires OnlyTimeouts(e) && from < |e.attempts| && UdpExchange.Made(e, timeout, from)
    ensures i < |e.attempts| && UdpExchange.Made(e, timeout, i) && UdpExchange.GaveUp(e, timeout, i)
    decreases |e.attempts| - from
  {
    if UdpExchange.GaveUp(e, timeout, from) {
      i := from;
    } else {
      i := FirstEnd(e, timeout, from + 1);
    }
  }

  /** The phases of an exchange over `e`, said of the mode that was asked for. */
  predicate WgPhases(packet: bytes, anonymous: bool, e: UdpExchange.Env, timeout: int, phases: seq<Phase>)
    requires |packet| >= 8
  {
    && |phases| >= 1 && phases[0].name == "udp"
    && (phases[0].ok <==> e.dialErr.None? && e.setupErr.None? && e.writeErr.None?)
    && (!phases[0].ok ==> |phases| == 1)
    && (phases[0].ok ==>
          && |phases| == 2 && phases[1].name == (if anonymous then "initiation-sent" else "handshake")
          && (phases[1].ok <==> WgPasses(packet, anonymous, e, timeout))
          && (OnlyTimeouts(e) ==> (phases[1].ok <==> anonymous)))
  }

  /** `built` is what building the initiation comes to. */
  function WgOutcome(h: Host, t: Target, drawn: Option<bytes>, built: Try<Noise.Initiation, Noise.BuildError>,
                     texts: Texts, net: UdpExchange.Env, timeout: int): Outcome
    requires CoversAttempts(net)
  {
    match ParseWgParams(h, t.params)
    case Fail(e) => SetupFailed(h.text(e), false)
    case Ok(cfg) =>
      match WgIdentity(h, cfg.anonymous, drawn)
      case Fail(e) => SetupFailed(h.text(e), cfg.anonymous)
      case Ok(_) =>
        match built
        case Fail(e) => SetupFailed(texts.build(e), cfg.anonymous)
        case Ok(m) =>
          Outcome(UdpExchange.Phases(WgExchange(cfg, m, texts), For(net, cfg.attempts), timeout), None, cfg.anonymous)
  }

  /** The prober, from settings to phases. The packet it puts on the wire is one that a
      responder with the configured key reads as our static key at this time. There is a
      packet exactly when the settings are good, there is randomness and both key
      agreements succeed: validation does not see the last of these, so a public key with
      no shared secret passes it and fails here. One agreement with any private key at all
      would tell beforehand. */
  method WgProbe(h: Host, s: Noise.Suite, t: Target, drawn: Option<bytes>, eph: Option<bytes>, idx: Option<bytes>,
                 now: Tai64n.Time, texts: Texts, net: UdpExchange.Env, timeout: int)
    returns (out: Outcome, built: Try<Noise.Initiation, Noise.BuildError>, sent: seq<bytes>)
    requires CoversAttempts(net) && now.Valid() && (idx.Some? ==> |idx.value| == 4)
    ensures out == WgOutcome(h, t, drawn, built, texts, net, timeout)
    ensures built.Fail? ==> |out.phases| == 1 && out.phases[0].name == "udp" && !out.phases[0].ok && sent == []
    ensures out.tls.None?
    ensures out.noLivenessClaim <==> ParseWgParams(h, t.params).Ok? && h.wgJson(t.params).value.allowAnonymous
    ensures built.Ok? ==>
      && ParseWgParams(h, t.params).Ok?
      && var cfg := ParseWgParams(h, t.params).value;
         && |built.value.packet| == 148 && |sent| <= cfg.attempts && (forall d :: d in sent ==> d == built.value.packet)
         && WgPhases(built.value.packet, h.wgJson(t.params).value.allowAnonymous, For(net, cfg.attempts), timeout,
           out.phases)
    ensures s.Lawful() ==> (built.Ok? <==>
      && ParseWgParams(h, t.params).Ok? && eph.Some? && idx.Some?
      && var cfg := ParseWgParams(h, t.params).value;
         var key := WgIdentity(h, cfg.anonymous, drawn);
         key.Ok? && s.dh(eph.value, cfg.peer).Some? && s.dh(key.value, cfg.peer).Some?)
    ensures forall any ::
      (&& s.Lawful() && s.AgreesByPeer() && eph.Some? && idx.Some?
       && ProberFor(t.proto) == Ok(WireGuard) && Rejection(h, t, drawn).None?) ==>
        (built.Ok? <==> s.dh(any, ParseWgParams(h, t.params).value.peer).Some?)
    ensures forall responder ::
      (&& s.Lawful() && built.Ok? && ParseWgParams(h, t.params).Ok?
       && ParseWgParams(h, t.params).value.peer == s.pub(responder)) ==>
        var cfg := ParseWgParams(h, t.params).value;
        WgIdentity(h, cfg.anonymous, drawn).Ok?
        && Noise.Consume(s, responder, built.value.packet)
          == Ok((s.pub(WgIdentity(h, cfg.anonymous, drawn).value), Tai64n.Encode(now)))
  {
    WgParamsAre(h, t.params);
    built, sent := Fail(Noise.NoRandomness), [];
    var cfg := ParseWgParams(h, t.params);
    if cfg.Fail? {
      return SetupFailed(h.text(cfg.error), false), built, sent;
    }
    var noLiveness := cfg.value.anonymous;
    var key := WgIdentity(h, cfg.value.anonymous, drawn);
    if key.Fail? {
      return SetupFailed(h.text(key.error), noLiveness), built, sent;
    }
    built := Noise.BuildInitiation(s, cfg.value.peer, key.value, now, eph, idx);
    if built.Fail? {
      return SetupFailed(texts.build(built.error), noLiveness), built, sent;
    }
    var phases;
    phases, sent := WgRun(cfg.value, built.value, texts, For(net, cfg.value.attempts), timeout);
    out := Outcome(phases, None, noLiveness);
  }

  /** The exchange in the mode of the settings. */
  method WgRun(cfg: WgConfig, m: Noise.Initiation, texts: Texts, e: UdpExchange.Env, timeout: int)
    returns (phases: seq<Phase>, sent: seq<bytes>)
    requires cfg.attempts > 0 && |e.attempts| == cfg.attempts
    requires |m.packet| >= 8 && m.senderIndex < Pow256(4) && m.packet[4..8] == LittleEndian(m.senderIndex, 4)
    ensures phases == UdpExchange.Phases(WgExchange(cfg, m, texts), e, timeout)
    ensures WgPhases(m.packet, cfg.anonymous, e, timeout, phases)
    ensures |sent| <= cfg.attempts && forall d :: d in sent ==> d == m.packet
  {
    var exchange := WgSession.Strict(m.packet, m.senderIndex, cfg.attempts, texts.fault);
    if cfg.anonymous {
      exchange := WgSession.Anonymous(m.packet, m.senderIndex, cfg.attempts, texts.fault);
    }
    var reply, deadlines;
    phases, reply, sent, deadlines := UdpExchange.Run(exchange, e, timeout);
    WgPassesAre(cfg, m, texts, e, timeout);
    if OnlyTimeouts(e) {
      SilenceDecides(m.packet, cfg.anonymous, e, timeout);
    }
  }

  const LOW_ORDER_KEY := Noise.Zeros(KEY_SIZE)

  /** Primitives that obey the laws and yield no shared secret with the all-zero point. */
  function SuiteWithLowOrderKey(): Noise.Suite {
    Noise.Suite(
      _ => Noise.Zeros(KEY_SIZE), (_, _) => Noise.Zeros(KEY_SIZE), (_, _) => Noise.Zeros(Noise.MAC_SIZE),
      (k, p, a) => p + Noise.Zeros(Noise.MAC_SIZE),
      (k, c: bytes, a) => Noise.Unseal(c),
      _ => seq(KEY_SIZE, _ => 9),
      (_, p) => if p == LOW_ORDER_KEY then None else Some(Noise.Zeros(KEY_SIZE)))
  }

  /** A host on which every setting decodes, to the all-zero public key. */
  function HostWithLowOrderKey(): Host {
    Host(_ => None, _ => Some(WgParams("key", 0, false)), _ => None, _ => Some(LOW_ORDER_KEY), _ => [],
      _ => None, "set", _ => "")
  }

  /** A target with the all-zero public key that passes validation. Its probe fails without a
      packet, so what is reported is a node that is down. */
  method LowOrderKeyPassesValidation(eph: bytes, idx: bytes, now: Tai64n.Time, texts: Texts, net: UdpExchange.Env,
                                     timeout: int)
    returns (h: Host, s: Noise.Suite, t: Target, out: Outcome)
    requires CoversAttempts(net) && now.Valid() && |idx| == 4
    ensures s.Lawful() && s.AgreesByPeer() && forall k :: s.dh(k, LOW_ORDER_KEY).None?
    ensures ProberFor(t.proto) == Ok(WireGuard) && Rejection(h, t, None).None?
    ensures |out.phases| == 1 && !out.phases[0].ok
  {
    h, s := HostWithLowOrderKey(), SuiteWithLowOrderKey();
    t := Target("n", "a", "", "", "", "wireguard", "{}");
    var built, sent;
    out, built, sent := WgProbe(h, s, t, None, Some(eph), Some(idx), now, texts, net, timeout);
  }

  // ---- the choice ----

  /** All that one probe of one target meets. */
  datatype World = World(
    tls: TlsNet, udp: UdpExchange.Env, drawn: Option<bytes>,
    built: Try<Noise.Initiation, Noise.BuildError>, texts: Texts, timeout: int)

  predicate Covers(w: World) { CoversAttempts(w.udp) }

  function OutcomeOf(h: Host, kind: Kind, t: Target, w: World): Outcome
    requires Covers(w)
  {
    match kind
    case Tls => TlsOutcome(h, t, w.tls)
    case Udp => UdpOutcome(h, t, w.udp, w.timeout)
    case WireGuard => WgOutcome(h, t, w.drawn, w.built, w.texts, w.udp, w.timeout)
  }

  function ProbeTarget(h: Host, t: Target, w: World): Result
    requires Covers(w)
  {
    match ProberFor(t.proto)
    case Fail(e) => NewResult(t).(error := "config: " + h.text(e))
    case Ok(kind) => Project(t, OutcomeOf(h, kind, t, w))
  }

  // ---- what holds of every probe ----

  /** Which prober a target gets: TLS unless another is named, and an unknown name is an error
      that carries no phase. */
  lemma {:induction false} ProberByName(h: Host, t: Target, w: World)
    requires Covers(w)
    ensures t.proto == "" || t.proto == "tls" ==> ProbeTarget(h, t, w) == Project(t, TlsOutcome(h, t, w.tls))
    ensures t.proto == "udp" ==> ProbeTarget(h, t, w) == Project(t, UdpOutcome(h, t, w.udp, w.timeout))
    ensures t.proto == "wireguard" ==>
      ProbeTarget(h, t, w) == Project(t, WgOutcome(h, t, w.drawn, w.built, w.texts, w.udp, w.timeout))
    ensures t.proto !in ["", "tls", "udp", "wireguard"] ==>
      var r := ProbeTarget(h, t, w); !r.ok && r.phases == [] && r.tcpOk.None? && "config: " <= r.error
  {
    assert |"tls"| == 3 && |"udp"| == 3 && |"wireguard"| == 9 && "tls"[0] != "udp"[0];
  }

  /** A prober runs at least one phase, and only the last one run can have failed. */
  lemma {:induction false} OnlyLastPhaseFails(h: Host, kind: Kind, t: Target, w: World)
    requires Covers(w)
    ensures var ps := OutcomeOf(h, kind, t, w).phases;
      0 < |ps| <= 2 && forall i :: 0 <= i < |ps| - 1 ==> ps[i].ok
  {
  }

  /** After validation no probe meets a configuration error: every accepted target gets as
      far as its network, apart from an initiation that cannot be built. The environment
      is the one that was validated, and the random source works. */
  lemma {:induction false} ValidationCoversProbing(h: Host, t: Target, validated: Option<bytes>, w: World)
    requires Covers(w) && Rejection(h, t, validated).None? && w.drawn.Some?
    ensures ProberFor(t.proto).Ok?
    ensures var r := ProbeTarget(h, t, w);
      match ProberFor(t.proto).value
      case Tls => r == Project(t, TlsOutcome(h, t, w.tls))
      case Udp =>
        exists cfg :: ParseUdpParams(h, t.params) == Ok(cfg) && 1 <= cfg.attempts <= Config.MAX_ATTEMPTS
          && r == Project(t,
               Outcome(UdpExchange.Phases(BareExchange(cfg), For(w.udp, cfg.attempts), w.timeout), None, false))
      case WireGuard =>
        exists cfg :: ParseWgParams(h, t.params) == Ok(cfg) && 1 <= cfg.attempts <= Config.MAX_ATTEMPTS
          && WgIdentity(h, cfg.anonymous, w.drawn).Ok?
          && r == Project(t,
               if w.built.Fail? then SetupFailed(w.texts.build(w.built.error), cfg.anonymous)
               else
                 var x := WgExchange(cfg, w.built.value, w.texts);
                 Outcome(UdpExchange.Phases(x, For(w.udp, cfg.attempts), w.timeout), None, cfg.anonymous))
  {
  }

  /** A TLS target is reported under the same address and SNI whatever the network does. */
  lemma {:induction false} TlsIdentityIsStable(h: Host, t: Target, net: TlsNet)
    ensures var r := Project(t, TlsOutcome(h, t, net));
      r.target.addr == t.addr && r.target.sni == EffectiveSni(h, t) && r.target.name == t.name
  {
  }

  /** An accepted target reports into one metric family, whatever happens to its probe:
      away from liveness exactly if it is an anonymous WireGuard target. */
  lemma {:induction false} MetricFamilyIsStable(h: Host, t: Target, validated: Option<bytes>, w: World)
    requires Covers(w) && Rejection(h, t, validated).None?
    ensures ProbeTarget(h, t, w).noLivenessClaim <==>
      ProberFor(t.proto) == Ok(WireGuard) && ParseWgParams(h, t.params).value.anonymous
  {
  }
}
