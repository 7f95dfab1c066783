/** The timestamp of a handshake initiation, which the responder's replay check compares. */
module Tai64n {
  import opened Bytes

  const TWO_TO_32 := 0x1_0000_0000
  const TWO_TO_63 := 0x8000_0000_0000_0000
  const TWO_TO_64 := 0x1_0000_0000_0000_0000
  const EPOCH := 0x4000_0000_0000_000a

  /** A Go time: signed 64-bit seconds and nanoseconds below one second. */
  datatype Time = Time(unix: int, nanos: nat) {
    predicate Valid() { -TWO_TO_63 <= unix < TWO_TO_63 && nanos < 1_000_000_000 }
    predicate Before(t: Time) { unix < t.unix || (unix == t.unix && nanos < t.nanos) }
  }

  /** The 64-bit sum of the epoch offset and the seconds, which wraps. */
  function Label(unix: int): nat { (EPOCH + unix) % TWO_TO_64 }

  function Encode(t: Time): seq<byte> {
    BigEndian(Label(t.unix), 8) + BigEndian(t.nanos, 4)
  }

  function Decode(ts: seq<byte>): Time
    requires |ts| == 12
  {
    Time(FromBigEndian(ts[..8]) - EPOCH, FromBigEndian(ts[8..]))
  }

  /** The times whose label wraps: more than the epoch offset before 1970. */
  predicate Wraps(t: Time) { t.unix < -EPOCH }

  lemma {:induction false} LabelValue(t: Time)
    requires t.Valid()
    ensures Label(t.unix) == if Wraps(t) then EPOCH + t.unix + TWO_TO_64 else EPOCH + t.unix
    ensures Label(t.unix) < Pow256(8) && t.nanos < Pow256(4)
  {
    assert Pow256(4) == TWO_TO_32;
    assert Pow256(8) == TWO_TO_64 by {
      assert Pow256(8) == 256 * 256 * 256 * 256 * Pow256(4);
    }
  }

  /** Twelve bytes always, and they give the time back exactly when it does not wrap. */
  lemma {:induction false} DecodeEncode(t: Time)
    requires t.Valid()
    ensures |Encode(t)| == 12
    ensures Decode(Encode(t)) == t <==> !Wraps(t)
  {
    LabelValue(t);
    BigEndianRoundTrip(Label(t.unix), 8);
    BigEndianRoundTrip(t.nanos, 4);
    assert Encode(t)[..8] == BigEndian(Label(t.unix), 8) && Encode(t)[8..] == BigEndian(t.nanos, 4);
  }

  /** 1970 is 2^62 and ten seconds, in eight bytes with the highest first, and nanoseconds
      follow in four. */
  lemma {:induction false} EpochBytes(nanos: nat)
    requires nanos < 256
    ensures Encode(Time(0, nanos)) == [0x40, 0, 0, 0, 0, 0, 0, 0x0a, 0, 0, 0, nanos as byte]
  {
    assert BigEndian(0x40, 1) == BigEndian(0, 0) + [0x40];
    assert BigEndian(0x4000, 2) == BigEndian(0x40, 1) + [0];
    assert BigEndian(0x40_0000, 3) == BigEndian(0x4000, 2) + [0];
    assert BigEndian(0x4000_0000, 4) == BigEndian(0x40_0000, 3) + [0];
    assert BigEndian(0x40_0000_0000, 5) == BigEndian(0x4000_0000, 4) + [0];
    assert BigEndian(0x4000_0000_0000, 6) == BigEndian(0x40_0000_0000, 5) + [0];
    assert BigEndian(0x40_0000_0000_0000, 7) == BigEndian(0x4000_0000_0000, 6) + [0];
    assert BigEndian(EPOCH, 8) == BigEndian(0x40_0000_0000_0000, 7) + [0x0a];
    assert BigEndian(0, 3) == BigEndian(0, 2) + [0] && BigEndian(0, 2) == BigEndian(0, 1) + [0];
    assert BigEndian(0, 1) == BigEndian(0, 0) + [0];
    assert BigEndian(nanos, 4) == BigEndian(0, 3) + [nanos as byte];
  }

  /** A later time is the greater byte string exactly when the two lie on the same side
      of the wrap; across it the order is reversed. */
  lemma {:induction false} OrderPreserved(a: Time, b: Time)
    requires a.Valid() && b.Valid() && a.Before(b)
    ensures |Encode(a)| == |Encode(b)| == 12
    ensures LexLess(Encode(a), Encode(b)) <==> Wraps(a) == Wraps(b)
    ensures LexLess(Encode(b), Encode(a)) <==> Wraps(a) != Wraps(b)
  {
    LabelValue(a);
    LabelValue(b);
    BigEndianOrder(Label(a.unix), Label(b.unix), 8);
    BigEndianOrder(Label(b.unix), Label(a.unix), 8);
    BigEndianOrder(a.nanos, b.nanos, 4);
    BigEndianOrder(b.nanos, a.nanos, 4);
    var la, lb := BigEndian(Label(a.unix), 8), BigEndian(Label(b.unix), 8);
    LexLessAppend(la, lb, BigEndian(a.nanos, 4), BigEndian(b.nanos, 4));
    LexLessAppend(lb, la, BigEndian(b.nanos, 4), BigEndian(a.nanos, 4));
  }
}
