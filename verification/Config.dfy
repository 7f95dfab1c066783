/** Reading a target's settings, and the validation that runs before any probing. */
module Config {
  import opened Base
  import opened Bytes
  import opened Probe

  type bytes = seq<byte>

  const DEFAULT_ATTEMPTS := 3
  const MAX_ATTEMPTS := 10
  const KEY_SIZE := 32

  datatype UdpParams = UdpParams(payload: string, payloadHex: string, attempts: int)
  datatype WgParams = WgParams(publicKey: string, attempts: int, allowAnonymous: bool)

  /** The decoders and the environment of the process. The JSON decoders refuse unknown fields. */
  datatype Host = Host(
    udpJson: string -> Option<UdpParams>,
    wgJson: string -> Option<WgParams>,
    unhex: string -> Option<bytes>,
    unbase64: string -> Option<bytes>,
    utf8: string -> bytes,
    splitHostPort: string -> Option<string>,
    privateKeyVar: string,
    text: ConfigError -> string)

  datatype ConfigError =
    | UnknownProto(proto: string)
    | AddrRequired
    | BadParams
    | BothPayloads
    | BadHex
    | NegativeAttempts(got: int)
    | TooManyAttempts(got: int)
    | PublicKeyRequired
    | BadPublicKey
    | NeedsPeer
    | BadPrivateKey
    | NoFreshKey

  datatype Kind = Tls | Udp | WireGuard

  /** The registry: an empty proto selects the TLS prober. */
  function ProberFor(proto: string): Try<Kind, ConfigError> {
    if proto == "" || proto == "tls" then Ok(Tls)
    else if proto == "udp" then Ok(Udp)
    else if proto == "wireguard" then Ok(WireGuard)
    else Fail(UnknownProto(proto))
  }

  function AttemptsOf(n: int): Try<nat, ConfigError> {
    if n == 0 then Ok(DEFAULT_ATTEMPTS)
    else if n < 0 then Fail(NegativeAttempts(n))
    else if n > MAX_ATTEMPTS then Fail(TooManyAttempts(n))
    else Ok(n)
  }

  datatype UdpConfig = UdpConfig(payload: bytes, attempts: nat)

  function UdpPayload(h: Host, p: UdpParams): Try<bytes, ConfigError> {
    if p.payload != "" && p.payloadHex != "" then Fail(BothPayloads)
    else if p.payloadHex != "" then
      match h.unhex(p.payloadHex) case None => Fail(BadHex) case Some(b) => Ok(b)
    else if p.payload != "" then Ok(h.utf8(p.payload))
    else Ok([0])
  }

  function ParseUdpParams(h: Host, raw: string): Try<UdpConfig, ConfigError> {
    var decoded := if |raw| > 0 then h.udpJson(raw) else Some(UdpParams("", "", 0));
    if decoded.None? then Fail(BadParams)
    else
      match UdpPayload(h, decoded.value)
      case Fail(e) => Fail(e)
      case Ok(payload) =>
        match AttemptsOf(decoded.value.attempts)
        case Fail(e) => Fail(e)
        case Ok(n) => Ok(UdpConfig(payload, n))
  }

  datatype WgConfig = WgConfig(peer: bytes, attempts: nat, anonymous: bool)

  function ParseWgParams(h: Host, raw: string): Try<WgConfig, ConfigError> {
    if |raw| == 0 then Fail(PublicKeyRequired)
    else
      var decoded := h.wgJson(raw);
      if decoded.None? then Fail(BadParams)
      else if decoded.value.publicKey == "" then Fail(PublicKeyRequired)
      else
        var key := h.unbase64(decoded.value.publicKey);
        if key.None? || |key.value| != KEY_SIZE then Fail(BadPublicKey)
        else
          match AttemptsOf(decoded.value.attempts)
          case Fail(e) => Fail(e)
          case Ok(n) => Ok(WgConfig(key.value, n, decoded.value.allowAnonymous))
  }

  /** The initiator's static key: the configured one, or in anonymous mode a drawn one. */
  function WgIdentity(h: Host, anonymous: bool, drawn: Option<bytes>): Try<bytes, ConfigError> {
    if h.privateKeyVar == "" then
      if !anonymous then Fail(NeedsPeer)
      else match drawn case None => Fail(NoFreshKey) case Some(k) => Ok(k)
    else
      var key := h.unbase64(h.privateKeyVar);
      if key.None? || |key.value| != KEY_SIZE then Fail(BadPrivateKey) else Ok(key.value)
  }

  /** What the prober of the target's kind has against it. */
  function Rejection(h: Host, t: Target, drawn: Option<bytes>): Option<ConfigError> {
    match ProberFor(t.proto)
    case Fail(e) => Some(e)
    case Ok(kind) =>
      if t.addr == "" then Some(AddrRequired)
      else
        match kind
        case Tls => None
        case Udp => (match ParseUdpParams(h, t.params) case Fail(e) => Some(e) case Ok(_) => None)
        case WireGuard =>
          match ParseWgParams(h, t.params)
          case Fail(e) => Some(e)
          case Ok(cfg) => (match WgIdentity(h, cfg.anonymous, drawn) case Fail(e) => Some(e) case Ok(_) => None)
  }

  // ---- what is accepted ----

  /** The settings of a UDP target: absent ones are the defaults. */
  function UdpSettings(h: Host, raw: string): Option<UdpParams> {
    if raw == "" then Some(UdpParams("", "", 0)) else h.udpJson(raw)
  }

  /** At most one payload, the hex one if it decodes, a zero byte if there is none; and three
      attempts unless one to ten are asked for. */
  lemma {:induction false} UdpParamsAre(h: Host, raw: string)
    ensures ParseUdpParams(h, raw).Ok? <==>
      && UdpSettings(h, raw).Some?
      && var p := UdpSettings(h, raw).value;
         && (p.payload == "" || p.payloadHex == "") && (p.payloadHex != "" ==> h.unhex(p.payloadHex).Some?)
         && 0 <= p.attempts <= 10
    ensures ParseUdpParams(h, raw).Ok? ==>
      var p, cfg := UdpSettings(h, raw).value, ParseUdpParams(h, raw).value;
      && (p.payload != "" ==> cfg.payload == h.utf8(p.payload))
      && (p.payloadHex != "" ==> Some(cfg.payload) == h.unhex(p.payloadHex))
      && (p.payload == "" && p.payloadHex == "" ==> cfg.payload == [0])
      && cfg.attempts == if p.attempts == 0 then 3 else p.attempts
  {
  }

  /** A public key of 32 bytes, and attempts as above; the mode is the one asked for. */
  lemma {:induction false} WgParamsAre(h: Host, raw: string)
    ensures ParseWgParams(h, raw).Ok? <==>
      && raw != "" && h.wgJson(raw).Some?
      && var p := h.wgJson(raw).value;
         && p.publicKey != "" && h.unbase64(p.publicKey).Some? && |h.unbase64(p.publicKey).value| == 32
         && 0 <= p.attempts <= 10
    ensures ParseWgParams(h, raw).Ok? ==>
      var p, cfg := h.wgJson(raw).value, ParseWgParams(h, raw).value;
      && Some(cfg.peer) == h.unbase64(p.publicKey) && cfg.anonymous == p.allowAnonymous
      && cfg.attempts == if p.attempts == 0 then 3 else p.attempts
  {
  }

  /** The key of the environment if it is set, and then it has 32 bytes; a drawn one in
      anonymous mode otherwise, and none in strict mode. */
  lemma {:induction false} IdentityIs(h: Host, anonymous: bool, drawn: Option<bytes>)
    ensures WgIdentity(h, anonymous, drawn).Ok? <==>
      if h.privateKeyVar == "" then anonymous && drawn.Some?
      else h.unbase64(h.privateKeyVar).Some? && |h.unbase64(h.privateKeyVar).value| == 32
    ensures WgIdentity(h, anonymous, drawn).Ok? ==>
      Some(WgIdentity(h, anonymous, drawn).value) == if h.privateKeyVar ==
        "" then drawn else h.unbase64(h.privateKeyVar)
  {
  }

  /** A target is accepted exactly if it has an address and its protocol, which is TLS unless
      one is named, is known and finds its settings and its key in order. */
  lemma {:induction false} AcceptedIff(h: Host, t: Target, drawn: Option<bytes>)
    ensures Rejection(h, t, drawn).None? <==>
      && t.addr != ""
      && (|| t.proto == "" || t.proto == "tls"
          || (t.proto == "udp" && ParseUdpParams(h, t.params).Ok?)
          || (t.proto == "wireguard" && ParseWgParams(h, t.params).Ok?
              && WgIdentity(h, ParseWgParams(h, t.params).value.anonymous, drawn).Ok?))
  {
    assert |"tls"| == 3 && |"udp"| == 3 && |"wireguard"| == 9 && "tls"[0] != "udp"[0];
  }

  datatype LoadError = EmptyList | BadTarget(index: nat, error: ConfigError)

  /** `drawn[i]` is the key that the random source yields while target `i` is validated.
      The whole file is refused for its first bad target, and accepted only if every
      target passes. */
  method LoadTargets(h: Host, targets: seq<Target>, drawn: seq<Option<bytes>>) returns (r: Try<seq<Target>, LoadError>)
    requires |drawn| == |targets|
    ensures r.Ok? <==> |targets| > 0 && forall i :: 0 <= i < |targets| ==> Rejection(h, targets[i], drawn[i]).None?
    ensures r.Ok? ==> r.value == targets
    ensures r.Fail? && r.error.EmptyList? ==> |targets| == 0
    ensures r.Fail? && r.error.BadTarget? ==> (
      && r.error.index < |targets|
      && Rejection(h, targets[r.error.index], drawn[r.error.index]) == Some(r.error.error)
      && forall i :: 0 <= i < r.error.index ==> Rejection(h, targets[i], drawn[i]).None?)
  {
    if |targets| == 0 {
      return Fail(EmptyList);
    }
    for i := 0 to |targets|
      invariant forall j :: 0 <= j < i ==> Rejection(h, targets[j], drawn[j]).None?
    {
      var bad := Rejection(h, targets[i], drawn[i]);
      if bad.Some? {
        return Fail(BadTarget(i, bad.value));
      }
    }
    r := Ok(targets);
  }
}
