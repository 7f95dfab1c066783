/** Recognising the answer to an initiation, strictly and in anonymous mode. */
module WgSession {
  import opened Base
  import opened Bytes
  import opened UdpExchange

  const MSG_RESPONSE: byte := 2
  const MSG_COOKIE_REPLY: byte := 3
  const RESPONSE_SIZE := 92
  const COOKIE_REPLY_SIZE := 64

  const PHASE_UDP_SEND := "udp"
  const PHASE_HANDSHAKE := "handshake"
  const PHASE_INITIATION_SENT := "initiation-sent"

  datatype Fault =
    | EmptyDatagram
    | ResponseLength(got: nat)
    | OtherSession(got: nat, ours: nat)
    | CookieReply
    | MalformedCookie(got: nat)
    | NotWireGuard(kind: byte, got: nat)

  function ValidateResponse(senderIndex: nat, reply: bytes): Option<Fault> {
    if |reply| == 0 then Some(EmptyDatagram)
    else if reply[0] == MSG_RESPONSE then
      if |reply| != RESPONSE_SIZE then Some(ResponseLength(|reply|))
      else if FromLittleEndian(reply[8..12]) != senderIndex then
        Some(OtherSession(FromLittleEndian(reply[8..12]), senderIndex))
      else None
    else if reply[0] == MSG_COOKIE_REPLY then
      if |reply| == COOKIE_REPLY_SIZE then Some(CookieReply) else Some(MalformedCookie(|reply|))
    else Some(NotWireGuard(reply[0], |reply|))
  }

  function AcceptAnonymous(senderIndex: nat, reply: bytes): Option<Fault> {
    var fault := ValidateResponse(senderIndex, reply);
    if fault.None? then None
    else if |reply| == COOKIE_REPLY_SIZE && reply[0] == MSG_COOKIE_REPLY then None
    else fault
  }

  /** Accepted: a response of the right size that carries bytes 4 to 8 of our own packet. */
  lemma {:induction false} AcceptedIffEchoesSender(senderIndex: nat, packet: bytes, reply: bytes)
    requires |packet| >= 8 && senderIndex < Pow256(4) && packet[4..8] == LittleEndian(senderIndex, 4)
    ensures ValidateResponse(senderIndex, reply).None? <==>
      |reply| == RESPONSE_SIZE && reply[0] == MSG_RESPONSE && reply[8..12] == packet[4..8]
  {
    LittleEndianRoundTrip(senderIndex, 4);
    if |reply| == RESPONSE_SIZE && FromLittleEndian(reply[8..12]) == senderIndex {
      FromLittleEndianInjective(reply[8..12], packet[4..8]);
    }
  }

  /** Why a reply is not taken, said of its bytes. */
  lemma {:induction false} FaultsAre(senderIndex: nat, reply: bytes)
    ensures var f := ValidateResponse(senderIndex, reply);
      && (f == Some(EmptyDatagram) <==> |reply| == 0)
      && (f == Some(CookieReply) <==> |reply| == 64 && reply[0] == 3)
      && (f == Some(MalformedCookie(|reply|)) <==> |reply| > 0 && |reply| != 64 && reply[0] == 3)
      && (f == Some(ResponseLength(|reply|)) <==> |reply| > 0 && |reply| != 92 && reply[0] == 2)
      && (|reply| == 92 && reply[0] == 2 ==>
            f == if FromLittleEndian(reply[8..12]) == senderIndex then None
                 else Some(OtherSession(FromLittleEndian(reply[8..12]), senderIndex)))
      && (|reply| > 0 && reply[0] !in {2, 3} ==> f == Some(NotWireGuard(reply[0], |reply|)))
  {
  }

  /** What a responder sends: its own index, and the initiator's echoed. */
  function HandshakeResponse(own: bytes, packet: bytes, rest: bytes): bytes
    requires |own| == 4 && |packet| >= 8 && |rest| == RESPONSE_SIZE - 12
  {
    [MSG_RESPONSE, 0, 0, 0] + own + packet[4..8] + rest
  }

  lemma {:induction false} EveryEchoIsAccepted(senderIndex: nat, packet: bytes, own: bytes, rest: bytes)
    requires |packet| >= 8 && senderIndex < Pow256(4) && packet[4..8] == LittleEndian(senderIndex, 4)
    requires |own| == 4 && |rest| == RESPONSE_SIZE - 12
    ensures ValidateResponse(senderIndex, HandshakeResponse(own, packet, rest)).None?
  {
    var r := HandshakeResponse(own, packet, rest);
    assert r[8..12] == packet[4..8];
    AcceptedIffEchoesSender(senderIndex, packet, r);
  }

  /** No reply answers two initiations. */
  lemma {:induction false} OneSessionPerReply(a: nat, b: nat, reply: bytes)
    requires ValidateResponse(a, reply).None? && ValidateResponse(b, reply).None?
    ensures a == b
  {
  }

  // ---- the two modes of the prober ----

  function Acceptor(describe: Fault -> string, check: bytes -> Option<Fault>): bytes -> Option<string> {
    (reply: bytes) => match check(reply) case None => None case Some(f) => Some(describe(f))
  }

  function Strict(packet: bytes, senderIndex: nat, attempts: nat, describe: Fault -> string): Exchange {
    Exchange(packet, attempts, PHASE_UDP_SEND, PHASE_HANDSHAKE,
      Some(Acceptor(describe, reply => ValidateResponse(senderIndex, reply))), false)
  }

  function Anonymous(packet: bytes, senderIndex: nat, attempts: nat, describe: Fault -> string): Exchange {
    Exchange(packet, attempts, PHASE_UDP_SEND, PHASE_INITIATION_SENT,
      Some(Acceptor(describe, reply => AcceptAnonymous(senderIndex, reply))), true)
  }

  /** What each mode takes as its answer. */
  lemma {:induction false} ModesAccept(packet: bytes, senderIndex: nat, attempts: nat, describe: Fault -> string,
                                       r: bytes)
    requires |packet| >= 8 && senderIndex < Pow256(4) && packet[4..8] == LittleEndian(senderIndex, 4)
    ensures Strict(packet, senderIndex, attempts, describe).accept.value(r).None? <==>
      |r| == 92 && r[0] == 2 && r[8..12] == packet[4..8]
    ensures Anonymous(packet, senderIndex, attempts, describe).accept.value(r).None? <==>
      (|r| == 92 && r[0] == 2 && r[8..12] == packet[4..8]) || (|r| == 64 && r[0] == 3)
  {
    AcceptedIffEchoesSender(senderIndex, packet, r);
  }

  predicate IsCookieReply(e: Read) {
    e.Datagram? && var r := Received(e.data); |r| == COOKIE_REPLY_SIZE && r[0] == MSG_COOKIE_REPLY
  }

  /** Silence looks the same to both modes, so both end at the same attempt. */
  lemma {:induction false} SameStop(s: Exchange, a: Exchange, env: Env, timeout: int, i: nat)
    requires Ready(s, env) && s.attempts == a.attempts && i < s.attempts
    requires s.accept.Some? && a.accept.Some?
    ensures StopFrom(s, env, timeout, i) == StopFrom(a, env, timeout, i)
    decreases s.attempts - i
  {
    if EventAt(s, env, timeout, i).Silent? && i + 1 < s.attempts {
      SameStop(s, a, env, timeout, i + 1);
    }
  }

  /** On the same events anonymous mode passes whenever strict mode does. It passes alone
      exactly when the loop ends in silence, or in a cookie reply that was read in time. */
  lemma {:induction false} AnonymousRelaxesStrict(packet: bytes, senderIndex: nat, attempts: nat,
                                                  describe: Fault -> string, env: Env, timeout: int)
    requires attempts > 0 && |env.attempts| == attempts
    ensures var s := Strict(packet, senderIndex, attempts, describe);
      var a := Anonymous(packet, senderIndex, attempts, describe);
      var stop := Stop(s, env, timeout);
      var last := env.attempts[stop];
      && stop == Stop(a, env, timeout)
      && (Verdict(s, env, timeout).ok ==> Verdict(a, env, timeout).ok)
      && (Verdict(a, env, timeout).ok && !Verdict(s, env, timeout).ok <==>
            || EventAt(s, env, timeout, stop).Silent? || EventAt(s, env, timeout, stop).OutOfTime?
            || ((stop > 0 ==> last.writeErr.None?) && last.deadlineErr.None? && IsCookieReply(last.read)))
  {
    var s, a := Strict(packet, senderIndex, attempts, describe), Anonymous(packet, senderIndex, attempts, describe);
    SameStop(s, a, env, timeout, 0);
  }
}
