/** The handshake initiation of WireGuard (Noise IK, message type 1), as nodecheck builds
    it and as a responder reads it. The primitives are any functions that obey the laws
    below; nothing is claimed about secrecy or forgery. */
module Noise {
  import opened Base
  import opened Bytes
  import Tai64n

  const CONSTRUCTION := "Noise_IKpsk2_25519_ChaChaPoly_BLAKE2s"
  const IDENTIFIER := "WireGuard v1 zx2c4 Jason@zx2c4.com"
  const LABEL_MAC1 := "mac1----"

  const MSG_INITIATION: byte := 1
  const INITIATION_SIZE := 148
  const KEY_SIZE := 32
  const MAC_SIZE := 16

  type bytes = seq<byte>

  function Ascii(s: string): bytes {
    seq(|s|, i requires 0 <= i < |s| => (s[i] as int % 256) as byte)
  }

  function Zeros(n: nat): bytes { seq(n, _ => 0 as byte) }

  datatype Suite = Suite(
    hash: bytes -> bytes,                       // BLAKE2s-256
    hmac: (bytes, bytes) -> bytes,              // HMAC-BLAKE2s-256: key, data
    mac: (bytes, bytes) -> bytes,               // keyed BLAKE2s-128: key, data
    seal: (bytes, bytes, bytes) -> bytes,       // ChaCha20-Poly1305, zero nonce: key, plaintext, aad
    open: (bytes, bytes, bytes) -> Option<bytes>,
    pub: bytes -> bytes,                        // X25519: private key to public key
    dh: (bytes, bytes) -> Option<bytes>)        // private, public; None on an all-zero result
  {
    ghost predicate FixedLengths() {
      && (forall x :: |hash(x)| == KEY_SIZE)
      && (forall k, x :: |hmac(k, x)| == KEY_SIZE)
      && (forall k, x :: |mac(k, x)| == MAC_SIZE)
      && (forall k :: |pub(k)| == KEY_SIZE)
      && (forall k, p, a :: |seal(k, p, a)| == |p| + MAC_SIZE)
    }

    ghost predicate OpenInvertsSeal() {
      && (forall k, p, a :: open(k, seal(k, p, a), a) == Some(p))
      && (forall k, c, a :: open(k, c, a).Some? ==> c == seal(k, open(k, c, a).value, a))
    }

    ghost predicate DhCommutes() {
      forall a, b :: dh(a, pub(b)) == dh(b, pub(a))
    }

    /** Agreement fails for a public key with every private key or with none: a clamped
        private key never vanishes against a point of large order. */
    ghost predicate AgreesByPeer() {
      forall a, b, p :: dh(a, p).Some? ==> dh(b, p).Some?
    }

    ghost predicate Lawful() { FixedLengths() && OpenInvertsSeal() && DhCommutes() }
  }

  // ---- the initiator ----

  function Concat(parts: seq<bytes>): bytes {
    if |parts| == 0 then [] else Concat(parts[..|parts| - 1]) + parts[|parts| - 1]
  }

  /** The hash fed part by part. */
  method WgHash(s: Suite, parts: seq<bytes>) returns (out: bytes)
    ensures out == s.hash(Concat(parts))
    ensures |parts| == 1 ==> out == s.hash(parts[0])
    ensures |parts| == 2 ==> out == s.hash(parts[0] + parts[1])
  {
    var fed: bytes := [];
    for i := 0 to |parts|
      invariant fed == Concat(parts[..i])
    {
      fed := fed + parts[i];
      assert parts[..i + 1][..i] == parts[..i];
    }
    assert parts[..|parts|] == parts;
    out := s.hash(fed);
    assert |parts| == 1 ==> fed == parts[0];
    assert |parts| == 2 ==> fed == parts[0] + parts[1];
  }

  function WgKdf1(s: Suite, ck: bytes, input: bytes): bytes {
    var temp := s.hmac(ck, input);
    s.hmac(temp, [1])
  }

  function WgKdf2(s: Suite, ck: bytes, input: bytes): (bytes, bytes) {
    var temp := s.hmac(ck, input);
    var k1 := s.hmac(temp, [1]);
    (k1, s.hmac(temp, k1 + [2]))
  }

  datatype BuildError = NoRandomness | EphemeralDh | StaticDh | AeadKey | MacKey | WrongLength(got: nat)

  function WgSeal(s: Suite, key: bytes, plaintext: bytes, aad: bytes): Try<bytes, BuildError> {
    if |key| != KEY_SIZE then Fail(AeadKey) else Ok(s.seal(key, plaintext, aad))
  }

  datatype Initiation = Initiation(packet: bytes, senderIndex: nat)

  /** The documented layout of the packet. */
  ghost predicate Layout(s: Suite, m: Initiation, peer: bytes, eph: bytes) {
    && |m.packet| == 148
    && m.packet[..4] == [1, 0, 0, 0]
    && m.senderIndex < Pow256(4) && m.packet[4..8] == LittleEndian(m.senderIndex, 4)
    && m.packet[8..40] == s.pub(eph)
    && Mac1Checks(s, peer, m.packet)
    && forall k :: 132 <= k < 148 ==> m.packet[k] == 0
  }

  // ---- the responder ----

  /** Bytes 116 to 132 are the keyed hash of all before them. */
  predicate Mac1Checks(s: Suite, responderPub: bytes, packet: bytes) {
    |packet| == INITIATION_SIZE
    && packet[116..132] == s.mac(s.hash(Ascii("mac1----") + responderPub), packet[..116])
  }

  /** The n-th output of the key derivation: each is keyed by the first HMAC and fed the
      output before it and its own number. */
  function KdfOutput(s: Suite, ck: bytes, input: bytes, i: nat): bytes
    requires 1 <= i < 256
  {
    var prev := if i == 1 then [] else KdfOutput(s, ck, input, i - 1);
    s.hmac(s.hmac(ck, input), prev + [i as byte])
  }

  method TestKdf(s: Suite, ck: bytes, input: bytes, n: nat) returns (out: seq<bytes>)
    requires n < 256
    ensures |out| == n && forall i :: 0 <= i < n ==> out[i] == KdfOutput(s, ck, input, i + 1)
  {
    var temp := s.hmac(ck, input);
    out := [];
    var prev: bytes := [];
    var i := 1;
    while i <= n
      invariant 1 <= i <= n + 1 && |out| == i - 1
      invariant forall j :: 0 <= j < i - 1 ==> out[j] == KdfOutput(s, ck, input, j + 1)
      invariant prev == if i == 1 then [] else KdfOutput(s, ck, input, i - 1)
    {
      out := out + [s.hmac(temp, prev + [i as byte])];
      prev := out[|out| - 1];
      i := i + 1;
    }
  }

  datatype ConsumeError = BadSize | BadType | BadReserved | NoSharedSecret | StaticDoesNotOpen | BadStaticKey
    | TimestampDoesNotOpen

  /** The responder's half, with its own derivation of the chain. */
  function Consume(s: Suite, responder: bytes, packet: bytes): Try<(bytes, bytes), ConsumeError> {
    if |packet| != 148 then Fail(BadSize)
    else if packet[0] != 1 then Fail(BadType)
    else if packet[1..4] != [0, 0, 0] then Fail(BadReserved)
    else
      var ck := s.hash(Ascii("Noise_IKpsk2_25519_ChaChaPoly_BLAKE2s"));
      var h := s.hash(s.hash(ck + Ascii("WireGuard v1 zx2c4 Jason@zx2c4.com")) + s.pub(responder));
      var ephemeral := packet[8..40];
      var h := s.hash(h + ephemeral);
      var ck := KdfOutput(s, ck, ephemeral, 1);
      var dh := s.dh(responder, ephemeral);
      if dh.None? then Fail(NoSharedSecret)
      else
        var encStatic := packet[40..88];
        var staticPub := s.open(KdfOutput(s, ck, dh.value, 2), encStatic, h);
        if staticPub.None? then Fail(StaticDoesNotOpen)
        else
          var ck := KdfOutput(s, ck, dh.value, 1);
          var h := s.hash(h + encStatic);
          if |staticPub.value| != KEY_SIZE then Fail(BadStaticKey)
          else
            var dh := s.dh(responder, staticPub.value);
            if dh.None? then Fail(NoSharedSecret)
            else
              var timestamp := s.open(KdfOutput(s, ck, dh.value, 2), packet[88..116], h);
              if timestamp.None? then Fail(TimestampDoesNotOpen)
              else Ok((staticPub.value, timestamp.value))
  }

  /** Both sides derive the same keys, though they are written differently. */
  lemma {:induction false} KdfsAgree(s: Suite, ck: bytes, input: bytes)
    ensures WgKdf1(s, ck, input) == KdfOutput(s, ck, input, 1)
    ensures WgKdf2(s, ck, input) == (KdfOutput(s, ck, input, 1), KdfOutput(s, ck, input, 2))
  {
    assert [] + [1 as byte] == [1];
  }

  // ---- building it ----

  /** All that mac1 covers. */
  function Signed(idx: bytes, ephPub: bytes, encStatic: bytes, encTime: bytes): bytes {
    [MSG_INITIATION, 0, 0, 0] + idx + ephPub + encStatic + encTime
  }

  function WithMacs(s: Suite, peer: bytes, signed: bytes): bytes {
    signed + s.mac(s.hash(Ascii(LABEL_MAC1) + peer), signed) + Zeros(MAC_SIZE)
  }

  lemma {:induction false} SignedFields(idx: bytes, ephPub: bytes, encStatic: bytes, encTime: bytes)
    requires |idx| == 4 && |ephPub| == KEY_SIZE && |encStatic| == 48 && |encTime| == 28
    ensures var p := Signed(idx, ephPub, encStatic, encTime);
      && |p| == 116 && p[..4] == [MSG_INITIATION, 0, 0, 0] && p[4..8] == idx && p[8..40] == ephPub
      && p[40..88] == encStatic && p[88..] == encTime
  {
  }

  lemma {:induction false} MacsFollow(s: Suite, peer: bytes, signed: bytes)
    requires s.FixedLengths() && |signed| == 116
    ensures var p := WithMacs(s, peer, signed);
      |p| == INITIATION_SIZE && p[..116] == signed && Mac1Checks(s, peer, p) && p[132..] == Zeros(MAC_SIZE)
  {
  }

  /** The chain on the initiator's side: what the two ciphertexts must be. */
  ghost predicate SealedBy(s: Suite, peer: bytes, staticKey: bytes, eph: bytes, now: Tai64n.Time, encStatic: bytes,
                           encTime: bytes) {
    && s.dh(eph, peer).Some? && s.dh(staticKey, peer).Some?
    && var ck0 := s.hash(Ascii(CONSTRUCTION));
       var h1 := s.hash(s.hash(s.hash(ck0 + Ascii(IDENTIFIER)) + peer) + s.pub(eph));
       var (ck2, key2) := WgKdf2(s, WgKdf1(s, ck0, s.pub(eph)), s.dh(eph, peer).value);
       var (_, key3) := WgKdf2(s, ck2, s.dh(staticKey, peer).value);
       && encStatic == s.seal(key2, s.pub(staticKey), h1)
       && encTime == s.seal(key3, Tai64n.Encode(now), s.hash(h1 + encStatic))
  }

  /** The two derivations meet: the responder opens what the initiator sealed. */
  lemma {:induction false} ReadsBack(s: Suite, responder: bytes, staticKey: bytes, eph: bytes, now: Tai64n.Time,
                                     packet: bytes)
    requires s.Lawful() && |packet| == INITIATION_SIZE && packet[..4] == [MSG_INITIATION, 0, 0, 0]
    requires packet[8..40] == s.pub(eph)
    requires SealedBy(s, s.pub(responder), staticKey, eph, now, packet[40..88], packet[88..116])
    ensures Consume(s, responder, packet) == Ok((s.pub(staticKey), Tai64n.Encode(now)))
  {
    var peer, encStatic := s.pub(responder), packet[40..88];
    var ck0 := s.hash(Ascii(CONSTRUCTION));
    var h1 := s.hash(s.hash(s.hash(ck0 + Ascii(IDENTIFIER)) + peer) + s.pub(eph));
    var ck1 := WgKdf1(s, ck0, s.pub(eph));
    KdfsAgree(s, ck0, s.pub(eph));
    var dhE := s.dh(eph, peer).value;
    assert s.dh(responder, s.pub(eph)) == Some(dhE);
    KdfsAgree(s, ck1, dhE);
    var (ck2, key2) := WgKdf2(s, ck1, dhE);
    assert s.open(key2, encStatic, h1) == Some(s.pub(staticKey));
    var dhS := s.dh(staticKey, peer).value;
    assert s.dh(responder, s.pub(staticKey)) == Some(dhS);
    KdfsAgree(s, ck2, dhS);
    assert packet[0] == packet[..4][0] && packet[1..4] == packet[..4][1..];
  }

  /** The packet is laid out as documented, and a responder whose public key is `peer`
      opens both ciphertexts and reads back our static public key and the timestamp. */
  ghost predicate Readable(s: Suite, m: Initiation, peer: bytes, staticKey: bytes, eph: bytes, now: Tai64n.Time)
    requires now.Valid()
  {
    && Layout(s, m, peer, eph)
    && forall responder :: peer == s.pub(responder) ==>
         Consume(s, responder, m.packet) == Ok((s.pub(staticKey), Tai64n.Encode(now)))
  }

  lemma {:induction false} AssembledIsRead(s: Suite, peer: bytes, staticKey: bytes, eph: bytes, now: Tai64n.Time,
                                           idx: bytes, encStatic: bytes, encTime: bytes)
    requires s.Lawful() && now.Valid() && |idx| == 4
    requires SealedBy(s, peer, staticKey, eph, now, encStatic, encTime)
    ensures |Signed(idx, s.pub(eph), encStatic, encTime)| == 116
    ensures var p := WithMacs(s, peer, Signed(idx, s.pub(eph), encStatic, encTime));
      Readable(s, Initiation(p, FromLittleEndian(idx)), peer, staticKey, eph, now)
  {
    Tai64n.DecodeEncode(now);
    LittleEndianOfBytes(idx);
    var signed := Signed(idx, s.pub(eph), encStatic, encTime);
    var p := WithMacs(s, peer, signed);
    SignedFields(idx, s.pub(eph), encStatic, encTime);
    MacsFollow(s, peer, signed);
    FieldsOfPrefix(p, signed);
    forall responder | peer == s.pub(responder)
      ensures Consume(s, responder, p) == Ok((s.pub(staticKey), Tai64n.Encode(now)))
    {
      ReadsBack(s, responder, staticKey, eph, now, p);
    }
  }

  lemma {:induction false} FieldsOfPrefix(p: bytes, signed: bytes)
    requires |p| == INITIATION_SIZE && |signed| == 116 && p[..116] == signed
    ensures p[..4] == signed[..4] && p[4..8] == signed[4..8] && p[8..40] == signed[8..40]
    ensures p[40..88] == signed[40..88] && p[88..116] == signed[88..]
  {
  }

  /** The chaining key, the hash and the derived keys, step by step, up to the two
      encrypted fields. */
  method SealFields(s: Suite, peer: bytes, staticKey: bytes, now: Tai64n.Time, eph: bytes)
    returns (r: Try<(bytes, bytes), BuildError>)
    requires now.Valid()
    ensures s.Lawful() ==> (r.Ok? <==> s.dh(eph, peer).Some? && s.dh(staticKey, peer).Some?)
    ensures s.Lawful() && r.Fail? ==> r.error in {EphemeralDh, StaticDh}
    ensures s.Lawful() && r.Ok? ==>
      SealedBy(s, peer, staticKey, eph, now, r.value.0, r.value.1) && |r.value.0| == 48 && |r.value.1| == 28
  {
    var ck := WgHash(s, [Ascii(CONSTRUCTION)]);
    var hi := WgHash(s, [ck, Ascii(IDENTIFIER)]);
    var h := WgHash(s, [hi, peer]);
    h := WgHash(s, [h, s.pub(eph)]);
    ck := WgKdf1(s, ck, s.pub(eph));

    var dhEphemeral := s.dh(eph, peer);
    if dhEphemeral.None? { return Fail(EphemeralDh); }
    var key;
    var pair := WgKdf2(s, ck, dhEphemeral.value);
    ck, key := pair.0, pair.1;
    var encryptedStatic := WgSeal(s, key, s.pub(staticKey), h);
    if encryptedStatic.Fail? { return Fail(encryptedStatic.error); }
    h := WgHash(s, [h, encryptedStatic.value]);

    var dhStatic := s.dh(staticKey, peer);
    if dhStatic.None? { return Fail(StaticDh); }
    pair := WgKdf2(s, ck, dhStatic.value);
    ck, key := pair.0, pair.1;
    var encryptedTimestamp := WgSeal(s, key, Tai64n.Encode(now), h);
    if encryptedTimestamp.Fail? { return Fail(encryptedTimestamp.error); }
    Tai64n.DecodeEncode(now);
    r := Ok((encryptedStatic.value, encryptedTimestamp.value));
  }

  /** The end of the packet: mac1 over all before it, a zero mac2, and the size check. */
  method AppendMacs(s: Suite, peer: bytes, packet: bytes) returns (r: Try<bytes, BuildError>)
    ensures s.FixedLengths() && |packet| == 116 ==> r == Ok(WithMacs(s, peer, packet))
    ensures r.Ok? ==> |r.value| == 148 && packet <= r.value
  {
    var mac1Key := WgHash(s, [Ascii(LABEL_MAC1), peer]);
    if |mac1Key| > KEY_SIZE { return Fail(MacKey); }
    var whole := packet + s.mac(mac1Key, packet);
    whole := whole + Zeros(MAC_SIZE);
    if |whole| != INITIATION_SIZE { return Fail(WrongLength(|whole|)); }
    r := Ok(whole);
  }

  lemma {:induction false} HeaderIsFirst(idx: bytes, ephPub: bytes, encStatic: bytes, encTime: bytes, whole: bytes)
    requires |idx| == 4 && Signed(idx, ephPub, encStatic, encTime) <= whole && |whole| == 148
    ensures whole[..4] == [1, 0, 0, 0] && whole[4..8] == idx
  {
    var header := [MSG_INITIATION, 0, 0, 0] + idx;
    assert header <= header + ephPub <= header + ephPub + encStatic <= Signed(idx, ephPub, encStatic, encTime);
    assert whole[..8] == header;
    assert whole[4..8] == whole[..8][4..] && whole[..4] == whole[..8][..4];
  }

  /** `eph` and `idx` are what the random source yields. A message is built exactly when
      there is randomness and both key agreements succeed; no other failure is reachable,
      and what is built can be read. */
  method BuildInitiation(s: Suite, peer: bytes, staticKey: bytes, now: Tai64n.Time, eph: Option<bytes>,
                         idx: Option<bytes>)
    returns (r: Try<Initiation, BuildError>)
    requires |peer| == KEY_SIZE && now.Valid()
    requires idx.Some? ==> |idx.value| == 4
    ensures s.Lawful() ==>
      (r.Ok? <==> eph.Some? && idx.Some? && s.dh(eph.value, peer).Some? && s.dh(staticKey, peer).Some?)
    ensures s.Lawful() && r.Fail? ==> r.error in {NoRandomness, EphemeralDh, StaticDh}
    ensures r.Ok? ==>
      && |r.value.packet| == 148 && r.value.packet[..4] == [1, 0, 0, 0] && r.value.senderIndex < Pow256(4)
      && idx.Some? && r.value.packet[4..8] == idx.value == LittleEndian(r.value.senderIndex, 4)
    ensures s.Lawful() && r.Ok? ==>
      && eph.Some? && idx.Some? && r.value.senderIndex == FromLittleEndian(idx.value)
      && Readable(s, r.value, peer, staticKey, eph.value, now)
  {
    if eph.None? { return Fail(NoRandomness); }
    var ephPub := s.pub(eph.value);
    if idx.None? { return Fail(NoRandomness); }
    var senderIndex := FromLittleEndian(idx.value);

    LittleEndianOfBytes(idx.value);
    var packet: bytes := [];
    packet := packet + [MSG_INITIATION, 0, 0, 0];
    packet := packet + LittleEndian(senderIndex, 4);
    packet := packet + ephPub;

    var fields := SealFields(s, peer, staticKey, now, eph.value);
    if fields.Fail? { return Fail(fields.error); }
    packet := packet + fields.value.0;
    packet := packet + fields.value.1;

    assert packet == Signed(idx.value, ephPub, fields.value.0, fields.value.1);
    if s.Lawful() {
      AssembledIsRead(s, peer, staticKey, eph.value, now, idx.value, fields.value.0, fields.value.1);
    }
    var whole := AppendMacs(s, peer, packet);
    if whole.Fail? { return Fail(whole.error); }
    HeaderIsFirst(idx.value, ephPub, fields.value.0, fields.value.1, whole.value);
    r := Ok(Initiation(whole.value, senderIndex));
  }

  /** A responder reads any two packets with equal first forty bytes, that it accepts as
      coming from the same key at the same time, as one: there is no second encoding of
      an initiation before mac1, and mac1 leaves no second encoding of itself. */
  lemma {:induction false} AcceptedBytesAreDetermined(s: Suite, responder: bytes, p: bytes, q: bytes)
    requires s.Lawful()
    requires Consume(s, responder, p).Ok? && Consume(s, responder, p) == Consume(s, responder, q)
    requires p[..40] == q[..40]
    requires Mac1Checks(s, s.pub(responder), p) && Mac1Checks(s, s.pub(responder), q)
    ensures p[..132] == q[..132]
  {
    assert p[8..40] == p[..40][8..] == q[8..40];
    assert p[40..88] == q[40..88];
    assert p[88..116] == q[88..116];
    assert p[..116] == p[..40] + p[40..88] + p[88..116];
    assert q[..116] == q[..40] + q[40..88] + q[88..116];
    assert p[..132] == p[..116] + p[116..132] && q[..132] == q[..116] + q[116..132];
  }

  /** Takes an all-zero tag off. */
  function Unseal(c: bytes): Option<bytes> {
    if |c| >= MAC_SIZE && c[|c| - MAC_SIZE..] == Zeros(MAC_SIZE) then Some(c[..|c| - MAC_SIZE]) else None
  }

  /** The laws can be met. */
  lemma {:induction false} LawfulSuiteExists() returns (s: Suite)
    ensures s.Lawful() && s.AgreesByPeer()
  {
    s := Suite(
      _ => Zeros(KEY_SIZE), (_, _) => Zeros(KEY_SIZE), (_, _) => Zeros(MAC_SIZE),
      (k, p, a) => p + Zeros(MAC_SIZE),
      (k, c: bytes, a) => Unseal(c),
      _ => Zeros(KEY_SIZE), (_, _) => Some(Zeros(KEY_SIZE)));
  }
}
