/**
 Byte strings as the database and the wire see them: big-endian integers compared
 lexicographically (table keys) and little-endian integers (table values, packet lengths).
 */
module Bytes {

  type Byte = b: int | 0 <= b < 256

  type ByteString = seq<Byte>

  /** 256 to the power `width`: the number of values `width` bytes can hold. */
  function Span(width: nat): (n: nat)
    ensures n > 0
  {
    if width == 0 then 1 else 256 * Span(width - 1)
  }

  function Zeros(n: nat): (z: ByteString)
    ensures |z| == n
  {
    seq(n, _ => 0)
  }

  const U32_SPAN: nat := 0x1_0000_0000
  const U64_SPAN: nat := 0x1_0000_0000_0000_0000

  lemma SpanValues()
    ensures Span(1) == 256
    ensures Span(4) == U32_SPAN
    ensures Span(8) == U64_SPAN
  {
    assert Span(2) == 0x1_0000;
    assert Span(3) == 0x100_0000;
    assert Span(5) == 0x100_0000_0000;
    assert Span(6) == 0x1_0000_0000_0000;
    assert Span(7) == 0x100_0000_0000_0000;
  }

  /** `n.to_be_bytes()` for an unsigned integer of `width` bytes. */
  function BigEndian(n: nat, width: nat): (s: ByteString)
    requires n < Span(width)
    ensures |s| == width
  {
    if width == 0 then [] else BigEndian(n / 256, width - 1) + [n % 256]
  }

  /** `from_be_bytes` */
  function FromBigEndian(s: ByteString): (n: nat)
    ensures n < Span(|s|)
  {
    if s == [] then 0 else 256 * FromBigEndian(s[..|s| - 1]) + s[|s| - 1]
  }

  /** `n.to_le_bytes()` for an unsigned integer of `width` bytes. */
  function LittleEndian(n: nat, width: nat): (s: ByteString)
    requires n < Span(width)
    ensures |s| == width
  {
    if width == 0 then [] else [n % 256] + LittleEndian(n / 256, width - 1)
  }

  /** `from_le_bytes` */
  function FromLittleEndian(s: ByteString): (n: nat)
    ensures n < Span(|s|)
  {
    if s == [] then 0 else s[0] + 256 * FromLittleEndian(s[1..])
  }

  lemma {:induction false} BigEndianRoundTrip(n: nat, width: nat)
    requires n < Span(width)
    ensures FromBigEndian(BigEndian(n, width)) == n
  {
    if width > 0 {
      BigEndianRoundTrip(n / 256, width - 1);
      var s := BigEndian(n, width);
      assert s[..|s| - 1] == BigEndian(n / 256, width - 1);
    }
  }

  lemma {:induction false} LittleEndianRoundTrip(n: nat, width: nat)
    requires n < Span(width)
    ensures FromLittleEndian(LittleEndian(n, width)) == n
  {
    if width > 0 {
      LittleEndianRoundTrip(n / 256, width - 1);
      assert LittleEndian(n, width)[1..] == LittleEndian(n / 256, width - 1);
    }
  }

  /** The digit of a number at a place in base 256, lowest first. */
  function DigitAt(n: nat, k: nat): Byte {
    if k == 0 then n % 256 else DigitAt(n / 256, k - 1)
  }

  lemma {:induction false} BigEndianDigits(n: nat, width: nat, k: nat)
    requires n < Span(width) && k < width
    ensures BigEndian(n, width)[width - 1 - k] == DigitAt(n, k)
  {
    if k > 0 {
      BigEndianDigits(n / 256, width - 1, k - 1);
    }
  }

  lemma {:induction false} LittleEndianDigits(n: nat, width: nat, k: nat)
    requires n < Span(width) && k < width
    ensures LittleEndian(n, width)[k] == DigitAt(n, k)
  {
    if k > 0 {
      LittleEndianDigits(n / 256, width - 1, k - 1);
    }
  }

  /** The byte order of the key-value store: a proper prefix comes first, else the first
      differing byte decides. */
  predicate Below(a: ByteString, b: ByteString) {
    if b == [] then false
    else if a == [] then true
    else a[0] < b[0] || (a[0] == b[0] && Below(a[1..], b[1..]))
  }

  /** The keys a range deletion covers: from the first key on, up to but without the second. */
  predicate InRange(key: ByteString, from: ByteString, to: ByteString) {
    !Below(key, from) && Below(key, to)
  }

  /** Comparing two keys whose leading parts have one length compares the parts in turn. */
  lemma {:induction false} BelowAppend(a: ByteString, b: ByteString, x: ByteString, y: ByteString)
    requires |a| == |b|
    ensures Below(a + x, b + y) <==> Below(a, b) || (a == b && Below(x, y))
  {
    if a == [] {
      assert a + x == x && b + y == y;
    } else {
      assert (a + x)[1..] == a[1..] + x;
      assert (b + y)[1..] == b[1..] + y;
      BelowAppend(a[1..], b[1..], x, y);
      assert a == [a[0]] + a[1..] && b == [b[0]] + b[1..];
    }
  }

  lemma {:induction false} BelowIsIrreflexive(a: ByteString)
    ensures !Below(a, a)
  {
    if a != [] {
      BelowIsIrreflexive(a[1..]);
    }
  }

  lemma {:induction false} BelowIsTotal(a: ByteString, b: ByteString)
    ensures Below(a, b) || a == b || Below(b, a)
  {
    if a != [] && b != [] && a[0] == b[0] {
      BelowIsTotal(a[1..], b[1..]);
      assert a == [a[0]] + a[1..] && b == [b[0]] + b[1..];
    }
  }

  lemma {:induction false} BelowIsTransitive(a: ByteString, b: ByteString, c: ByteString)
    requires Below(a, b) && Below(b, c)
    ensures Below(a, c)
  {
    if a != [] && b != [] && c != [] && a[0] == b[0] == c[0] {
      BelowIsTransitive(a[1..], b[1..], c[1..]);
    }
  }

  /** On big-endian integers of one width the byte order is the numeric order. */
  lemma {:induction false} BigEndianOrder(m: nat, n: nat, width: nat)
    requires m < Span(width) && n < Span(width)
    ensures Below(BigEndian(m, width), BigEndian(n, width)) <==> m < n
    ensures BigEndian(m, width) == BigEndian(n, width) <==> m == n
  {
    if width > 0 {
      BigEndianOrder(m / 256, n / 256, width - 1);
      BelowAppend(BigEndian(m / 256, width - 1), BigEndian(n / 256, width - 1), [m % 256], [n % 256]);
      BigEndianRoundTrip(m, width);
      BigEndianRoundTrip(n, width);
    }
  }
}
