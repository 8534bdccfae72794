/**
 ADNL framing over TCP: the encoder of packets and the incremental reader that takes the deciphered
 stream apart again, however it is cut into reads.

 A packet is a four-byte little-endian length and then a body of that length: 32 bytes of filler,
 the payload, and 32 bytes of digest of the two. The cipher adds a positional key stream (the
 counter mode of section 6.5 of NIST SP 800-38A); the digest is some function to 32 bytes.
 */
module AdnlFraming {
  import opened Results
  import opened Bytes
  import opened BitStrings
  import opened QueriesCache

  type Digest32 = d: ByteString | |d| == 32 witness seq(32, _ => 0)

  type Hasher = ByteString -> Digest32

  type KeyStream = nat -> Byte

  /** What a stream cipher does to the byte at a position. */
  type Pad = (nat, Byte) -> Byte

  const MIN_PACKET_LEN: nat := 4 + 32 + 32

  // --- The cipher

  /** Exclusive or on the lowest `width` bits. */
  function XorBits(a: nat, b: nat, width: nat): (c: nat)
  {
    if width == 0 then 0 else (if a % 2 == b % 2 then 0 else 1) + 2 * XorBits(a / 2, b / 2, width - 1)
  }

  lemma XorIsByte(a: Byte, b: Byte)
    ensures XorBits(a, b, 8) < 256
  {
    XorIsBelow(a, b, 8);
    assert PowerOfTwo(8) == 256 by {
      assert PowerOfTwo(4) == 16;
    }
  }

  lemma {:induction false} XorIsBelow(a: nat, b: nat, width: nat)
    ensures XorBits(a, b, width) < PowerOfTwo(width)
  {
    if width > 0 {
      XorIsBelow(a / 2, b / 2, width - 1);
    }
  }

  lemma {:induction false} XorTwice(a: nat, b: nat, width: nat)
    requires a < PowerOfTwo(width)
    ensures XorBits(XorBits(a, b, width), b, width) == a
  {
    if width > 0 {
      XorTwice(a / 2, b / 2, width - 1);
      Halves(if a % 2 == b % 2 then 0 else 1, XorBits(a / 2, b / 2, width - 1));
    }
  }

  lemma Halves(bit: nat, n: nat)
    requires bit < 2
    ensures (bit + 2 * n) % 2 == bit && (bit + 2 * n) / 2 == n
  {
  }

  /** The bit of a number at a place, lowest first. */
  function BitAt(n: nat, k: nat): nat {
    if k == 0 then n % 2 else BitAt(n / 2, k - 1)
  }

  /** It is the exclusive or, bit by bit. */
  lemma {:induction false} XorBitwise(a: nat, b: nat, width: nat, k: nat)
    requires k < width
    ensures BitAt(XorBits(a, b, width), k) == if BitAt(a, k) == BitAt(b, k) then 0 else 1
  {
    Halves(if a % 2 == b % 2 then 0 else 1, XorBits(a / 2, b / 2, width - 1));
    if k > 0 {
      XorBitwise(a / 2, b / 2, width - 1, k - 1);
    }
  }

  function Xor(a: Byte, b: Byte): Byte {
    XorIsByte(a, b);
    XorBits(a, b, 8)
  }

  lemma XorUndoesXor(a: Byte, b: Byte)
    ensures Xor(Xor(a, b), b) == a
  {
    assert PowerOfTwo(8) == 256 by {
      assert PowerOfTwo(4) == 16;
    }
    XorTwice(a, b, 8);
  }

  /** Adding the key stream. */
  function XorPad(key: KeyStream): Pad {
    (i, b) => Xor(b, key(i))
  }

  /** The bytes after the cipher is applied from position `from` on. */
  function Keyed(pad: Pad, from: nat, data: ByteString): (out: ByteString)
    ensures |out| == |data|
  {
    seq(|data|, i requires 0 <= i < |data| => pad(from + i, data[i]))
  }

  /** Deciphering with the same key stream from the same position undoes enciphering. */
  lemma KeyedTwice(key: KeyStream, from: nat, data: ByteString)
    ensures Keyed(XorPad(key), from, Keyed(XorPad(key), from, data)) == data
  {
    forall i | 0 <= i < |data| ensures XorPad(key)(from + i, XorPad(key)(from + i, data[i])) == data[i] {
      XorUndoesXor(data[i], key(from + i));
    }
  }

  /** Enciphering piece by piece is enciphering at once. */
  lemma KeyedAppend(pad: Pad, from: nat, a: ByteString, b: ByteString)
    ensures Keyed(pad, from, a + b) == Keyed(pad, from, a) + Keyed(pad, from + |a|, b)
  {
    forall i | |a| <= i < |a| + |b| ensures Keyed(pad, from, a + b)[i] == Keyed(pad, from + |a|, b)[i - |a|] {
      assert (a + b)[i] == b[i - |a|];
    }
  }

  // --- Packets

  function Length32(n: nat): (s: ByteString)
    ensures |s| == 4
  {
    SpanValues();
    LittleEndian(n % U32_SPAN, 4)
  }

  /** The filler is not random: it is what the payload leaves behind when it is moved up, its own
      bytes 4 to 36, followed by zeros if it is shorter. */
  function Filler(payload: ByteString): (f: ByteString)
    ensures |f| == 32
  {
    (payload + Zeros(36))[4..36]
  }

  function Body(digest: Hasher, payload: ByteString): (body: ByteString)
    ensures |body| == |payload| + 64
  {
    Filler(payload) + payload + digest(Filler(payload) + payload)
  }

  /** What is sent before it is enciphered: the length and the body. The length is cut to 32 bits. */
  function Packet(body: ByteString): (p: ByteString)
    ensures |p| == 4 + |body|
  {
    Length32(|body|) + body
  }

  /** The length of the packet whose first four bytes, little-endian, tell that of its body. */
  function PacketLen(s: ByteString): (n: nat)
    requires |s| >= 4
    ensures n >= 4
  {
    var b0: nat, b1: nat, b2: nat, b3: nat := s[0], s[1], s[2], s[3];
    b0 + 0x100 * b1 + 0x1_0000 * b2 + 0x100_0000 * b3 + 4
  }

  lemma PacketLenIsLittleEndian(s: ByteString)
    requires |s| >= 4
    ensures PacketLen(s) == FromLittleEndian(s[..4]) + 4
  {
    var t0 := s[..4];
    var t1 := t0[1..];
    var t2 := t1[1..];
    var t3 := t2[1..];
    assert t0[0] == s[0] && t1[0] == s[1] && t2[0] == s[2] && t3[0] == s[3];
    assert t3[1..] == [] && FromLittleEndian([]) == 0;
    assert FromLittleEndian(t3) == s[3];
    assert FromLittleEndian(t2) == s[2] + 256 * FromLittleEndian(t3);
    assert FromLittleEndian(t1) == s[1] + 256 * FromLittleEndian(t2);
    assert FromLittleEndian(t0) == s[0] + 256 * FromLittleEndian(t1);
  }

  /** The payload of a body, unless the body is too small, its digest is wrong or the payload is
      empty. */
  function PayloadOf(digest: Hasher, body: ByteString): Option<ByteString> {
    if |body| < 64 || digest(body[..|body| - 32]) != body[|body| - 32..] || |body| == 64 then None
    else Some(body[32..|body| - 32])
  }

  function ToSeq<T>(o: Option<T>): seq<T> {
    if o.Some? then [o.value] else []
  }

  datatype Parsed = Parsed(payloads: seq<ByteString>, tail: ByteString)

  /** A whole packet is at the front. No packet is looked at before `MIN_PACKET_LEN` bytes are there. */
  predicate IsComplete(s: ByteString) {
    |s| >= MIN_PACKET_LEN && |s| >= PacketLen(s)
  }

  /** The payload of the packet at the front, if it is accepted. */
  function Front(digest: Hasher, s: ByteString): seq<ByteString>
    requires IsComplete(s)
  {
    ToSeq(PayloadOf(digest, s[4..PacketLen(s)]))
  }

  function AfterFront(s: ByteString): (rest: ByteString)
    requires IsComplete(s)
    ensures |rest| < |s|
  {
    s[PacketLen(s)..]
  }

  /** The payloads in a deciphered stream and the bytes after the last complete packet. */
  function Parse(digest: Hasher, s: ByteString): (r: Parsed)
    ensures |r.tail| <= |s|
    decreases |s|
  {
    if !IsComplete(s) then Parsed([], s)
    else Join(Front(digest, s), Parse(digest, AfterFront(s)))
  }

  function Join(payloads: seq<ByteString>, rest: Parsed): Parsed {
    Parsed(payloads + rest.payloads, rest.tail)
  }

  lemma JoinTwice(first: seq<ByteString>, second: seq<ByteString>, rest: Parsed)
    ensures Join(first, Join(second, rest)) == Join(first + second, rest)
  {
    assert first + (second + rest.payloads) == first + second + rest.payloads;
  }

  /** What comes after a complete packet has no influence on it. */
  lemma FrontIsFixed(digest: Hasher, a: ByteString, b: ByteString)
    requires IsComplete(a)
    ensures IsComplete(a + b) && Front(digest, a + b) == Front(digest, a) && AfterFront(a + b) == AfterFront(a) + b
  {
    var n := PacketLen(a);
    var s := a + b;
    assert s[4..n] == a[4..n];
    assert s[n..] == a[n..] + b;
  }

  /** The law of incremental reading: parsing a stream whose beginning is parsed already is parsing
      what is left of the beginning and the rest. */
  lemma {:induction false} ParseAppend(digest: Hasher, a: ByteString, b: ByteString)
    ensures Parse(digest, a + b) == Join(Parse(digest, a).payloads, Parse(digest, Parse(digest, a).tail + b))
    decreases |a|
  {
    if IsComplete(a) {
      var rest := Parse(digest, AfterFront(a));
      FrontIsFixed(digest, a, b);
      ParseAppend(digest, AfterFront(a), b);
      JoinTwice(Front(digest, a), rest.payloads, Parse(digest, rest.tail + b));
    } else {
      assert [] + Parse(digest, a + b).payloads == Parse(digest, a + b).payloads;
    }
  }

  /** A tail is parsed as far as it goes. */
  lemma {:induction false} TailIsParsed(digest: Hasher, s: ByteString)
    ensures var tail := Parse(digest, s).tail; Parse(digest, tail) == Parsed([], tail)
    decreases |s|
  {
    if IsComplete(s) {
      TailIsParsed(digest, AfterFront(s));
    }
  }

  // --- Whole streams of packets

  function Packets(bodies: seq<ByteString>): ByteString {
    if bodies == [] then [] else Packet(bodies[0]) + Packets(bodies[1..])
  }

  /** The payloads of the bodies that are accepted. */
  function Accepted(digest: Hasher, bodies: seq<ByteString>): seq<ByteString> {
    if bodies == [] then [] else ToSeq(PayloadOf(digest, bodies[0])) + Accepted(digest, bodies[1..])
  }

  predicate Fits(body: ByteString) {
    64 <= |body| < U32_SPAN
  }

  lemma AppendSplits(a: ByteString, b: ByteString)
    ensures (a + b)[..|a|] == a && (a + b)[|a|..] == b
  {
  }

  /** The length field tells the length as long as it fits. */
  lemma Length32RoundTrip(n: nat, s: ByteString)
    requires |s| >= 4 && s[..4] == Length32(n)
    ensures PacketLen(s) == n % U32_SPAN + 4
  {
    SpanValues();
    LittleEndianRoundTrip(n % U32_SPAN, 4);
    PacketLenIsLittleEndian(s);
  }

  lemma FrontOfPackets(digest: Hasher, body: ByteString, rest: ByteString)
    requires Fits(body)
    ensures var s := Packet(body) + rest;
            IsComplete(s) && Front(digest, s) == ToSeq(PayloadOf(digest, body)) && AfterFront(s) == rest
  {
    var s := Packet(body) + rest;
    var len := Length32(|body|);
    assert s == len + (body + rest);
    AppendSplits(len, body + rest);
    Length32RoundTrip(|body|, s);
    AppendSplits(len + body, rest);
    assert s[4..4 + |body|] == body;
  }

  /** A stream of packets with honest lengths is taken apart into exactly these packets: a packet
      with a wrong digest or no payload is passed over, and all others are delivered, in order. */
  lemma {:induction false} ParsePackets(digest: Hasher, bodies: seq<ByteString>)
    requires forall body | body in bodies :: Fits(body)
    ensures Parse(digest, Packets(bodies)) == Parsed(Accepted(digest, bodies), [])
  {
    if bodies != [] {
      FrontOfPackets(digest, bodies[0], Packets(bodies[1..]));
      ParsePackets(digest, bodies[1..]);
    }
  }

  function Bodies(digest: Hasher, payloads: seq<ByteString>): (bodies: seq<ByteString>)
    ensures |bodies| == |payloads|
    ensures forall i | 0 <= i < |payloads| :: bodies[i] == Body(digest, payloads[i])
  {
    if payloads == [] then [] else [Body(digest, payloads[0])] + Bodies(digest, payloads[1..])
  }

  function NonEmpty(payloads: seq<ByteString>): seq<ByteString> {
    if payloads == [] then [] else (if payloads[0] == [] then [] else [payloads[0]]) + NonEmpty(payloads[1..])
  }

  predicate CanBeSent(payload: ByteString) {
    |payload| + 64 < U32_SPAN
  }

  lemma PayloadOfBody(digest: Hasher, payload: ByteString)
    ensures PayloadOf(digest, Body(digest, payload)) == if payload == [] then None else Some(payload)
  {
    var body := Body(digest, payload);
    assert body[..|body| - 32] == Filler(payload) + payload;
    assert body[|body| - 32..] == digest(Filler(payload) + payload);
    assert body[32..|body| - 32] == payload;
  }

  lemma {:induction false} AcceptedBodies(digest: Hasher, payloads: seq<ByteString>)
    ensures Accepted(digest, Bodies(digest, payloads)) == NonEmpty(payloads)
  {
    if payloads != [] {
      PayloadOfBody(digest, payloads[0]);
      AcceptedBodies(digest, payloads[1..]);
      assert Bodies(digest, payloads)[1..] == Bodies(digest, payloads[1..]);
    }
  }

  /** The plain stream that carries these payloads. */
  function Stream(digest: Hasher, payloads: seq<ByteString>): ByteString {
    Packets(Bodies(digest, payloads))
  }

  /** The round trip of a whole stream: every payload comes out, in order, but for the empty ones,
      and nothing is left over. */
  lemma StreamRoundTrip(digest: Hasher, payloads: seq<ByteString>)
    requires forall p | p in payloads :: CanBeSent(p)
    ensures Parse(digest, Stream(digest, payloads)) == Parsed(NonEmpty(payloads), [])
  {
    var bodies := Bodies(digest, payloads);
    forall body | body in bodies ensures Fits(body) {
      var i :| 0 <= i < |bodies| && bodies[i] == body;
      assert CanBeSent(payloads[i]);
    }
    ParsePackets(digest, bodies);
    AcceptedBodies(digest, payloads);
  }

  lemma AppendAssociates(a: ByteString, b: ByteString, c: ByteString)
    ensures a + (b + c) == (a + b) + c
  {
  }

  lemma {:induction false} PacketsAppend(bodies: seq<ByteString>, last: ByteString)
    ensures Packets(bodies + [last]) == Packets(bodies) + Packet(last)
  {
    var all := bodies + [last];
    if bodies == [] {
      assert all[1..] == [] && Packets([]) == [];
      assert all[0] == last;
    } else {
      assert all[1..] == bodies[1..] + [last] && all[0] == bodies[0];
      PacketsAppend(bodies[1..], last);
      AppendAssociates(Packet(bodies[0]), Packets(bodies[1..]), Packet(last));
    }
  }

  lemma StreamAppend(digest: Hasher, payloads: seq<ByteString>, last: ByteString)
    ensures Stream(digest, payloads + [last]) == Stream(digest, payloads) + Packet(Body(digest, last))
  {
    assert Bodies(digest, payloads + [last]) == Bodies(digest, payloads) + [Body(digest, last)];
    PacketsAppend(Bodies(digest, payloads), Body(digest, last));
  }

  /** No payload is longer than the stream less the frame around it. */
  lemma {:induction false} PayloadsAreShorter(digest: Hasher, s: ByteString)
    ensures forall p | p in Parse(digest, s).payloads :: |p| + MIN_PACKET_LEN <= |s|
    decreases |s|
  {
    if IsComplete(s) {
      PayloadsAreShorter(digest, AfterFront(s));
    }
  }

  /** An intact packet with this payload stands at this place: its length, some filler, the payload, and
      the digest of the two. */
  ghost predicate StandsAt(digest: Hasher, s: ByteString, at: nat, payload: ByteString) {
    && payload != [] && at + |payload| + 68 <= |s| && PacketLen(s[at..]) == |payload| + 68
    && s[at + 36..at + 36 + |payload|] == payload
    && s[at + 36 + |payload|..at + 68 + |payload|] == digest(s[at + 4..at + 36 + |payload|])
  }

  lemma FrontStands(digest: Hasher, s: ByteString)
    requires IsComplete(s) && Front(digest, s) != []
    ensures Front(digest, s) == [Front(digest, s)[0]] && StandsAt(digest, s, 0, Front(digest, s)[0])
  {
    var n, payload := PacketLen(s), Front(digest, s)[0];
    assert s[0..] == s;
    SliceOfSlice(s, 4, n, 32, n - 36);
    SliceOfSlice(s, 4, n, 0, n - 36);
    SliceOfSlice(s, 4, n, n - 36, n - 4);
    assert |payload| == n - 68 && payload == s[36..n - 32];
    assert digest(s[4..n - 32]) == s[n - 32..n];
  }

  lemma SliceOfSlice(s: ByteString, low: nat, high: nat, from: nat, to: nat)
    requires low <= high <= |s| && from <= to <= high - low
    ensures s[low..high][from..to] == s[low + from..low + to]
  {
    var a, b := s[low..high][from..to], s[low + from..low + to];
    forall k | 0 <= k < to - from ensures a[k] == b[k] {
      assert s[low..high][from + k] == s[low + from + k];
    }
    assert a == b;
  }

  lemma StandsLater(digest: Hasher, s: ByteString, n: nat, at: nat, payload: ByteString)
    requires n <= |s| && StandsAt(digest, s[n..], at, payload)
    ensures StandsAt(digest, s, n + at, payload)
  {
    var p := |payload|;
    assert s[n..][at..] == s[n + at..];
    SliceOfRest(s, n, at + 36, at + 36 + p);
    SliceOfRest(s, n, at + 36 + p, at + 68 + p);
    SliceOfRest(s, n, at + 4, at + 36 + p);
  }

  lemma SliceOfRest(s: ByteString, n: nat, from: nat, to: nat)
    requires n <= |s| && from <= to <= |s| - n
    ensures s[n..][from..to] == s[n + from..n + to]
  {
  }

  /** No damaged packet is let through: every payload taken out of a stream stands in it in an intact
      packet. */
  lemma {:induction false} PayloadStands(digest: Hasher, s: ByteString, k: nat) returns (at: nat)
    requires k < |Parse(digest, s).payloads|
    ensures StandsAt(digest, s, at, Parse(digest, s).payloads[k])
    decreases |s|
  {
    var front, n := Front(digest, s), PacketLen(s);
    if k < |front| {
      FrontStands(digest, s);
      at := 0;
    } else {
      if front != [] {
        FrontStands(digest, s);
      }
      at := PayloadStands(digest, AfterFront(s), k - |front|);
      StandsLater(digest, s, n, at, Parse(digest, s).payloads[k]);
      at := n + at;
    }
  }

  /** One packet makes the round trip exactly when its payload is not empty and the length of its
      body fits in 32 bits. */
  lemma RoundTripExactly(digest: Hasher, payload: ByteString)
    ensures Parse(digest, Packet(Body(digest, payload))) == Parsed([payload], []) <==>
              payload != [] && CanBeSent(payload)
  {
    if CanBeSent(payload) {
      ShortRoundTrip(digest, payload);
    } else {
      LongPacketIsCutShort(digest, payload);
    }
  }

  lemma ShortRoundTrip(digest: Hasher, payload: ByteString)
    requires CanBeSent(payload)
    ensures Parse(digest, Packet(Body(digest, payload))) == Parsed(if payload == [] then [] else [payload], [])
  {
    var body := Body(digest, payload);
    assert Packet(body) + [] == Packet(body);
    FrontOfPackets(digest, body, []);
    PayloadOfBody(digest, payload);
    assert Parse(digest, []) == Parsed([], []);
  }

  /** A body too long for its length field is read as a shorter packet and what follows it. */
  lemma LongPacketIsCutShort(digest: Hasher, payload: ByteString)
    requires !CanBeSent(payload)
    ensures payload !in Parse(digest, Packet(Body(digest, payload))).payloads
  {
    var s := Packet(Body(digest, payload));
    var declared := (|payload| + 64) % U32_SPAN;
    assert s[..4] == Length32(|payload| + 64);
    Length32RoundTrip(|payload| + 64, s);
    var n := PacketLen(s);
    assert n == declared + 4 < |s|;
    PayloadsAreShorter(digest, AfterFront(s));
    var first := PayloadOf(digest, s[4..n]);
    assert first.Some? ==> |first.value| < |payload|;
    assert Parse(digest, s).payloads == ToSeq(first) + Parse(digest, AfterFront(s)).payloads;
  }

  // --- Objects

  /** A growable byte vector. */
  class ByteVec {
    var bytes: ByteString

    constructor (bytes: ByteString)
      ensures this.bytes == bytes
    {
      this.bytes := bytes;
    }

    /** `resize`, padding with zeros. */
    method Resize(len: nat)
      modifies this
      ensures bytes == if len <= |old(bytes)| then old(bytes)[..len] else old(bytes) + Zeros(len - |old(bytes)|)
    {
      bytes := if len <= |bytes| then bytes[..len] else bytes + Zeros(len - |bytes|);
    }

    /** `copy_within(from..to, dest)`, through which source and target may overlap. */
    method CopyWithin(from: nat, to: nat, dest: nat)
      requires from <= to <= |bytes| && dest + (to - from) <= |bytes|
      modifies this
      ensures bytes == old(bytes)[..dest] + old(bytes)[from..to] + old(bytes)[dest + (to - from)..]
    {
      bytes := bytes[..dest] + bytes[from..to] + bytes[dest + (to - from)..];
    }

    /** `extend_from_slice` */
    method Extend(more: ByteString)
      modifies this
      ensures bytes == old(bytes) + more
    {
      bytes := bytes + more;
    }
  }

  /** A stream cipher: applying the key stream moves the position on. */
  class Cipher {
    const pad: Pad
    var position: nat

    constructor (pad: Pad)
      ensures this.pad == pad && position == 0
    {
      this.pad, position := pad, 0;
    }

    /** `apply_keystream`, byte by byte in place. */
    method ApplyKeystream(data: ByteVec)
      modifies this, data
      ensures data.bytes == Keyed(pad, old(position), old(data.bytes))
      ensures position == old(position) + |old(data.bytes)|
    {
      ghost var plain := data.bytes;
      var i := 0;
      while i < |data.bytes|
        invariant i <= |data.bytes| == |plain| && position == old(position) + i
        invariant forall j | 0 <= j < i :: data.bytes[j] == pad(old(position) + j, plain[j])
        invariant forall j | i <= j < |plain| :: data.bytes[j] == plain[j]
      {
        data.bytes := data.bytes[i := pad(position, data.bytes[i])];
        position := position + 1;
        i := i + 1;
      }
    }
  }

  /** `encrypt_data`: the vector becomes the enciphered packet of its payload. */
  method EncryptData(cipher: Cipher, data: ByteVec, digest: Hasher)
    modifies cipher, data
    ensures data.bytes == Keyed(cipher.pad, old(cipher.position), Packet(Body(digest, old(data.bytes))))
    ensures cipher.position == old(cipher.position) + |old(data.bytes)| + MIN_PACKET_LEN
  {
    ghost var payload := data.bytes;
    var len := |data.bytes|;
    data.Resize(len + 36);
    data.CopyWithin(0, len, 36);
    MovedUp(payload, data.bytes);
    data.bytes := Length32(len + 64) + data.bytes[4..];
    AppendSplits(Length32(len + 64), Filler(payload) + payload);
    data.Extend(digest(data.bytes[4..]));
    AppendAssociates(Length32(len + 64), Filler(payload) + payload, digest(Filler(payload) + payload));
    cipher.ApplyKeystream(data);
  }

  /** What moving a payload up by 36 bytes leaves after the place of the length. */
  lemma MovedUp(payload: ByteString, moved: ByteString)
    requires var grown := payload + Zeros(36);
             moved == grown[..36] + grown[0..|payload|] + grown[36 + |payload|..]
    ensures moved[4..] == Filler(payload) + payload
  {
    var grown := payload + Zeros(36);
    assert grown[0..|payload|] == payload && grown[36 + |payload|..] == [];
  }

  /** What a sender that holds the lock for one payload after the other writes to the socket. */
  method SendAll(cipher: Cipher, payloads: seq<ByteString>, digest: Hasher) returns (wire: ByteString)
    modifies cipher
    ensures wire == Keyed(cipher.pad, old(cipher.position), Stream(digest, payloads))
    ensures cipher.position == old(cipher.position) + |Stream(digest, payloads)|
  {
    wire := [];
    ghost var plain: ByteString := [];
    for i := 0 to |payloads|
      invariant plain == Stream(digest, payloads[..i])
      invariant wire == Keyed(cipher.pad, old(cipher.position), plain)
      invariant cipher.position == old(cipher.position) + |plain|
    {
      ghost var packet := Packet(Body(digest, payloads[i]));
      assert payloads[..i + 1] == payloads[..i] + [payloads[i]];
      StreamAppend(digest, payloads[..i], payloads[i]);
      KeyedAppend(cipher.pad, old(cipher.position), plain, packet);
      plain := plain + packet;
      var data := new ByteVec(payloads[i]);
      EncryptData(cipher, data, digest);
      wire := wire + data.bytes;
    }
    assert payloads[..|payloads|] == payloads;
  }

  // --- The reader

  datatype Read = Data(bytes: ByteString) | Failed(error: nat)

  datatype ReaderError = UnexpectedEof | SocketError(error: nat)

  datatype AnswerMsg = AnswerMsg(queryId: QueryId, data: ByteString)

  /** The deserialiser of answers. */
  type Decoder = ByteString -> Option<AnswerMsg>

  /** The calls to the table of pending queries that the payloads lead to. */
  function Answers(decode: Decoder, payloads: seq<ByteString>): seq<AnswerMsg> {
    if payloads == [] then [] else ToSeq(decode(payloads[0])) + Answers(decode, payloads[1..])
  }

  lemma AnswersOfOne(decode: Decoder, payload: Option<ByteString>)
    ensures Answers(decode, ToSeq(payload)) == if payload.Some? then ToSeq(decode(payload.value)) else []
  {
    if payload.Some? {
      assert ToSeq(payload)[1..] == [];
    }
  }

  /** What is copied to the front and cut off there is what followed. */
  lemma FrontIsDropped(s: ByteString, n: nat)
    requires n <= |s|
    ensures (s[..0] + s[n..|s|] + s[0 + (|s| - n)..])[..|s| - n] == s[n..]
  {
  }

  lemma {:induction false} AnswersAppend(decode: Decoder, a: seq<ByteString>, b: seq<ByteString>)
    ensures Answers(decode, a + b) == Answers(decode, a) + Answers(decode, b)
  {
    if a == [] {
      assert a + b == b;
    } else {
      assert (a + b)[1..] == a[1..] + b;
      AnswersAppend(decode, a[1..], b);
    }
  }

  /** Each payload that can be decoded is passed on, after those of the payloads before it. */
  lemma AnswerIsPassed(decode: Decoder, payloads: seq<ByteString>, k: nat)
    requires k < |payloads| && decode(payloads[k]).Some?
    ensures var i := |Answers(decode, payloads[..k])|;
            i < |Answers(decode, payloads)| && Answers(decode, payloads)[i] == decode(payloads[k]).value
  {
    var before, rest := payloads[..k], payloads[k..];
    assert payloads == before + rest;
    AnswersAppend(decode, before, rest);
    assert Answers(decode, rest)[0] == decode(payloads[k]).value;
  }

  /** And nothing else is. */
  lemma {:induction false} PassedIsAnswer(decode: Decoder, payloads: seq<ByteString>, i: nat) returns (k: nat)
    requires i < |Answers(decode, payloads)|
    ensures k < |payloads| && decode(payloads[k]) == Some(Answers(decode, payloads)[i])
    ensures |Answers(decode, payloads[..k])| == i
  {
    var first := ToSeq(decode(payloads[0]));
    if i < |first| {
      k := 0;
    } else {
      k := PassedIsAnswer(decode, payloads[1..], i - |first|);
      assert payloads[..k + 1][1..] == payloads[1..][..k];
      k := k + 1;
    }
  }

  /** The bytes that arrive before the first end of file or error. */
  function Received(chunks: seq<Read>): ByteString {
    if chunks == [] || chunks[0].Failed? || chunks[0].bytes == [] then [] else chunks[0].bytes + Received(chunks[1..])
  }

  function Ending(chunks: seq<Read>): Option<ReaderError> {
    if chunks == [] then None
    else if chunks[0].Failed? then Some(SocketError(chunks[0].error))
    else if chunks[0].bytes == [] then Some(UnexpectedEof)
    else Ending(chunks[1..])
  }

  /** `target_len` is the declared length of the packet at the front of the buffer once that is
      known, and nothing before. */
  predicate IsTarget(targetLen: Option<nat>, packet: ByteString) {
    if |packet| < MIN_PACKET_LEN then targetLen == None else targetLen == Some(PacketLen(packet)) && !IsComplete(packet)
  }

  /** The same before the next packets are taken: the packet may be complete by now. */
  predicate MayBeTarget(targetLen: Option<nat>, packet: ByteString) {
    targetLen == None || (|packet| >= MIN_PACKET_LEN && targetLen == Some(PacketLen(packet)))
  }

  /** These payloads come first, and then whatever the rest gives. */
  ghost predicate IsParsedUpTo(digest: Hasher, whole: ByteString, payloads: seq<ByteString>, rest: ByteString) {
    Parse(digest, whole) == Join(payloads, Parse(digest, rest))
  }

  /** These answers have been passed on for the bytes that have arrived, and this is left of them. */
  ghost predicate HasPassed(reader: SocketReader, arrived: ByteString, answers: seq<AnswerMsg>, tail: ByteString)
  {
    var parsed := Parse(reader.digest, Keyed(reader.cipher.pad, 0, arrived));
    answers == Answers(reader.decode, parsed.payloads) && tail == parsed.tail
  }

  lemma ParseMore(digest: Hasher, decode: Decoder, plain: ByteString, more: ByteString, whole: ByteString,
                  answers: seq<AnswerMsg>, tail: ByteString)
    requires whole == plain + more
    requires answers == Answers(decode, Parse(digest, plain).payloads) && tail == Parse(digest, plain).tail
    ensures answers + Answers(decode, Parse(digest, tail + more).payloads)
            == Answers(decode, Parse(digest, whole).payloads)
    ensures Parse(digest, tail + more).tail == Parse(digest, whole).tail
  {
    ParseAppend(digest, plain, more);
    AnswersAppend(decode, Parse(digest, plain).payloads, Parse(digest, tail + more).payloads);
  }

  lemma PassMore(reader: SocketReader, arrived: ByteString, bytes: ByteString, answers: seq<AnswerMsg>,
                 tail: ByteString)
    requires HasPassed(reader, arrived, answers, tail)
    ensures var parsed := Parse(reader.digest, tail + Keyed(reader.cipher.pad, |arrived|, bytes));
            HasPassed(reader, arrived + bytes, answers + Answers(reader.decode, parsed.payloads), parsed.tail)
  {
    var pad := reader.cipher.pad;
    KeyedAppend(pad, 0, arrived, bytes);
    ParseMore(reader.digest, reader.decode, Keyed(pad, 0, arrived), Keyed(pad, |arrived|, bytes),
              Keyed(pad, 0, arrived + bytes), answers, tail);
  }

  lemma StillTarget(targetLen: Option<nat>, packet: ByteString, more: ByteString)
    requires IsTarget(targetLen, packet)
    ensures MayBeTarget(targetLen, packet + more)
  {
  }

  lemma NextPacket(digest: Hasher, whole: ByteString, payloads: seq<ByteString>, rest: ByteString)
    requires IsParsedUpTo(digest, whole, payloads, rest) && IsComplete(rest)
    ensures IsParsedUpTo(digest, whole, payloads + Front(digest, rest), AfterFront(rest))
  {
    JoinTwice(payloads, Front(digest, rest), Parse(digest, AfterFront(rest)));
  }

  lemma AllTaken(digest: Hasher, whole: ByteString, payloads: seq<ByteString>, rest: ByteString)
    requires IsParsedUpTo(digest, whole, payloads, rest) && !IsComplete(rest)
    ensures Parse(digest, whole) == Parsed(payloads, rest)
  {
    assert payloads + [] == payloads;
  }

  /** These bytes have arrived with the first `i` reads, and none of these ended the stream. */
  ghost predicate HasArrived(chunks: seq<Read>, i: nat, arrived: ByteString) {
    i <= |chunks| && Received(chunks) == arrived + Received(chunks[i..]) && Ending(chunks) == Ending(chunks[i..])
  }

  predicate GoesOn(read: Read) {
    read.Data? && read.bytes != []
  }

  lemma NextRead(chunks: seq<Read>, i: nat, arrived: ByteString)
    requires HasArrived(chunks, i, arrived) && i < |chunks|
    ensures GoesOn(chunks[i]) ==> HasArrived(chunks, i + 1, arrived + chunks[i].bytes)
    ensures !GoesOn(chunks[i]) ==>
              && Received(chunks) == arrived
              && Ending(chunks) == Some(if chunks[i].Failed? then SocketError(chunks[i].error) else UnexpectedEof)
  {
    assert chunks[i..][1..] == chunks[i + 1..];
    if GoesOn(chunks[i]) {
      AppendAssociates(arrived, chunks[i].bytes, Received(chunks[i + 1..]));
    }
  }

  predicate AllGoOn(first: seq<Read>) {
    forall i | 0 <= i < |first| :: GoesOn(first[i])
  }

  /** What is received: the bytes of all reads one after another, up to the first that ends the stream. */
  lemma {:induction false} ReceivedExactly(first: seq<Read>, next: Read, rest: seq<Read>)
    requires AllGoOn(first)
    ensures GoesOn(next) ==>
              && Received(first + [next] + rest) == Received(first) + next.bytes + Received(rest)
              && Ending(first + [next] + rest) == Ending(rest)
    ensures !GoesOn(next) ==>
              && Received(first + [next] + rest) == Received(first)
              && Ending(first + [next] + rest)
                 == Some(if next.Failed? then SocketError(next.error) else UnexpectedEof)
  {
    var all := first + [next] + rest;
    if first == [] {
      assert all[1..] == rest && all[0] == next;
    } else {
      assert all[1..] == first[1..] + [next] + rest && all[0] == first[0];
      ReceivedExactly(first[1..], next, rest);
    }
  }

  lemma NoReadYet(chunks: seq<Read>)
    ensures HasArrived(chunks, 0, [])
  {
    assert chunks[0..] == chunks && [] + Received(chunks) == Received(chunks);
  }

  lemma AllReads(chunks: seq<Read>, arrived: ByteString)
    requires HasArrived(chunks, |chunks|, arrived)
    ensures Received(chunks) == arrived && Ending(chunks) == None
  {
    assert chunks[|chunks|..] == [] && arrived + [] == arrived;
  }

  class SocketReader {
    const cipher: Cipher
    const packet: ByteVec
    const digest: Hasher
    const decode: Decoder
    var targetLen: Option<nat>

    constructor (pad: Pad, digest: Hasher, decode: Decoder)
      ensures fresh(cipher) && fresh(packet) && packet.bytes == [] && targetLen == None
      ensures cipher.pad == pad && cipher.position == 0 && this.digest == digest && this.decode == decode
    {
      cipher := new Cipher(pad);
      packet := new ByteVec([]);
      this.digest, this.decode := digest, decode;
      targetLen := None;
    }

    /** The checks of one complete packet, in their order. */
    method CheckPacket(length: nat) returns (payload: Option<ByteString>)
      requires 4 <= length <= |packet.bytes|
      ensures payload == PayloadOf(digest, packet.bytes[4..length])
    {
      if length < MIN_PACKET_LEN {
        return None;
      }
      var body := packet.bytes[4..length];
      assert packet.bytes[4..length - 32] == body[..|body| - 32];
      assert packet.bytes[length - 32..length] == body[|body| - 32..];
      if digest(packet.bytes[4..length - 32]) != packet.bytes[length - 32..length] {
        return None;
      }
      var data := packet.bytes[4 + 32..length - 32];
      assert data == body[32..|body| - 32];
      if data == [] {
        return None;
      }
      return Some(data);
    }

    /** Deals with the complete packet at the front of the buffer: its answer is passed on, and what
        follows the packet is copied over it. */
    method TakePacket(length: nat) returns (answers: seq<AnswerMsg>)
      requires 4 <= length <= |packet.bytes|
      modifies packet
      ensures answers == Answers(decode, ToSeq(PayloadOf(digest, old(packet.bytes)[4..length])))
      ensures packet.bytes == old(packet.bytes)[length..]
    {
      answers := [];
      var payload := CheckPacket(length);
      if payload.Some? {
        answers := ToSeq(decode(payload.value));
      }
      AnswersOfOne(decode, payload);
      FrontIsDropped(packet.bytes, length);
      var left := |packet.bytes| - length;
      packet.CopyWithin(length, |packet.bytes|, 0);
      packet.Resize(left);
    }

    /** The loop over the complete packets in the buffer. */
    method TakePackets() returns (answers: seq<AnswerMsg>)
      requires MayBeTarget(targetLen, packet.bytes)
      modifies this`targetLen, packet
      ensures var parsed := Parse(digest, old(packet.bytes));
              answers == Answers(decode, parsed.payloads) && packet.bytes == parsed.tail
      ensures IsTarget(targetLen, packet.bytes)
    {
      answers := [];
      ghost var whole, payloads := packet.bytes, [];
      while |packet.bytes| >= if targetLen.Some? then targetLen.value else MIN_PACKET_LEN
        invariant MayBeTarget(targetLen, packet.bytes)
        invariant IsParsedUpTo(digest, whole, payloads, packet.bytes)
        invariant answers == Answers(decode, payloads)
        decreases |packet.bytes|
      {
        var length := PacketLen(packet.bytes);
        if |packet.bytes| < length {
          targetLen := Some(length);
          break;
        }
        ghost var payload := Front(digest, packet.bytes);
        NextPacket(digest, whole, payloads, packet.bytes);
        AnswersAppend(decode, payloads, payload);
        payloads := payloads + payload;
        var more := TakePacket(length);
        answers := answers + more;
        targetLen := None;
      }
      AllTaken(digest, whole, payloads, packet.bytes);
    }

    /** One read: its bytes are deciphered and added to the buffer, and the packets that are
        complete now are taken out. */
    method Receive(bytes: ByteString, ghost arrived: ByteString, ghost passed: seq<AnswerMsg>)
      returns (answers: seq<AnswerMsg>)
      requires HasPassed(this, arrived, passed, packet.bytes) && IsTarget(targetLen, packet.bytes)
      requires cipher.position == |arrived|
      modifies this`targetLen, packet, cipher
      ensures HasPassed(this, arrived + bytes, passed + answers, packet.bytes)
      ensures IsTarget(targetLen, packet.bytes) && cipher.position == |arrived + bytes|
    {
      PassMore(this, arrived, bytes, passed, packet.bytes);
      var buffer := new ByteVec(bytes);
      cipher.ApplyKeystream(buffer);
      StillTarget(targetLen, packet.bytes, buffer.bytes);
      packet.Extend(buffer.bytes);
      answers := TakePackets();
    }

    /** `socket_reader`, for the reads so far: the answers passed on, the undecoded tail and the
        target length depend only on the bytes received and not on how they were cut into reads. */
    method Run(chunks: seq<Read>) returns (answers: seq<AnswerMsg>, ending: Option<ReaderError>)
      requires packet.bytes == [] && targetLen == None && cipher.position == 0
      modifies this`targetLen, packet, cipher
      ensures var parsed := Parse(digest, Keyed(cipher.pad, 0, Received(chunks)));
              answers == Answers(decode, parsed.payloads) && packet.bytes == parsed.tail
      ensures IsTarget(targetLen, packet.bytes)
      ensures ending == Ending(chunks)
    {
      answers, ending := [], None;
      ghost var arrived: ByteString := [];
      NoReadYet(chunks);
      var i := 0;
      while i < |chunks|
        invariant HasArrived(chunks, i, arrived) && cipher.position == |arrived|
        invariant HasPassed(this, arrived, answers, packet.bytes) && IsTarget(targetLen, packet.bytes)
      {
        var read := chunks[i];
        NextRead(chunks, i, arrived);
        if read.Failed? || read.bytes == [] {
          ending := Some(if read.Failed? then SocketError(read.error) else UnexpectedEof);
          return;
        }
        var more := Receive(read.bytes, arrived, answers);
        answers := answers + more;
        arrived := arrived + read.bytes;
        i := i + 1;
      }
      AllReads(chunks, arrived);
    }
  }

  // --- Both ends together

  /** Whatever part of the wire has arrived, and however it was cut, the payloads taken out of it are
      the first of those sent, in order; and when all of it has arrived they are all of them, but for
      the empty ones. */
  lemma ReceivedArePrefix(key: KeyStream, digest: Hasher, payloads: seq<ByteString>, chunks: seq<Read>)
    requires forall p | p in payloads :: CanBeSent(p)
    requires Received(chunks) <= Keyed(XorPad(key), 0, Stream(digest, payloads))
    ensures var got := Parse(digest, Keyed(XorPad(key), 0, Received(chunks))).payloads;
            && got <= NonEmpty(payloads)
            && (Received(chunks) == Keyed(XorPad(key), 0, Stream(digest, payloads)) ==> got == NonEmpty(payloads))
  {
    var wire, plain := Keyed(XorPad(key), 0, Stream(digest, payloads)), Stream(digest, payloads);
    var n := |Received(chunks)|;
    KeyedTwice(key, 0, plain);
    assert Keyed(XorPad(key), 0, Received(chunks)) == plain[..n];
    assert plain == plain[..n] + plain[n..];
    ParseAppend(digest, plain[..n], plain[n..]);
    StreamRoundTrip(digest, payloads);
    if n == |plain| {
      assert plain[..n] == plain;
    }
  }
}
