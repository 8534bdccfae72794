/**
 Keys and values of the proof tables, and the key ranges a garbage collection deletes. Numbers in
 keys are big-endian, so that the byte order of keys is the order of the numbers; numbers in values
 are little-endian. The upper ends of the ranges are the successors of the bounds, taken in 32 or
 64 bits: at the largest integer they wrap to zero and the range is empty.
 */
module StorageKeys {
  import opened Bytes
  import opened Blocks
  import opened BitStrings

  const ADDRESS_LEN: nat := 32
  const TX_KEY_LEN: nat := 41
  const BLOCK_KEY_LEN: nat := 13

  predicate IsI8(workchain: int) {
    -128 <= workchain < 128
  }

  /** `workchain as u8` */
  function WorkchainByte(workchain: int): Byte {
    workchain % 256
  }

  /** `as i8` */
  function SignedByte(b: Byte): int {
    if b < 128 then b else b - 256
  }

  predicate InKeyBounds(shard: ShardIdent, seqno: nat) {
    IsI8(shard.workchain) && shard.prefix < U64_SPAN && seqno < U32_SPAN
  }

  predicate InTxBounds(tx: TxId) {
    tx.lt < U64_SPAN && tx.account < Span(ADDRESS_LEN)
  }

  function ShardKey(shard: ShardIdent): (k: ByteString)
    requires shard.prefix < U64_SPAN
    ensures |k| == 9
  {
    SpanValues();
    [WorkchainByte(shard.workchain)] + BigEndian(shard.prefix, 8)
  }

  function BlockKey(shard: ShardIdent, seqno: nat): (k: ByteString)
    requires shard.prefix < U64_SPAN && seqno < U32_SPAN
    ensures |k| == BLOCK_KEY_LEN
  {
    SpanValues();
    ShardKey(shard) + BigEndian(seqno, 4)
  }

  function U32Key(n: nat): (k: ByteString)
    requires n < U32_SPAN
    ensures |k| == 4
  {
    SpanValues();
    BigEndian(n, 4)
  }

  function TxKey(workchain: int, tx: TxId): (k: ByteString)
    requires InTxBounds(tx)
    ensures |k| == TX_KEY_LEN
  {
    SpanValues();
    BigEndian(tx.lt, 8) + ([WorkchainByte(workchain)] + BigEndian(tx.account, ADDRESS_LEN))
  }

  function TxValue(shard: ShardIdent, seqno: nat, refByMcSeqno: nat): (v: ByteString)
    requires shard.prefix < U64_SPAN && seqno < U32_SPAN && refByMcSeqno < U32_SPAN
    ensures |v| == BLOCK_KEY_LEN + 4
  {
    SpanValues();
    BlockKey(shard, seqno) + LittleEndian(refByMcSeqno, 4)
  }

  // --- Layout

  /** A block key, byte by byte: the workchain as a signed byte, then the prefix and the seqno,
      big-endian. */
  lemma BlockKeyLayout(shard: ShardIdent, seqno: nat, i: nat, j: nat)
    requires InKeyBounds(shard, seqno) && i < 8 && j < 4
    ensures var k := BlockKey(shard, seqno);
            && k[0] == WorkchainByte(shard.workchain)
            && k[0] == (if shard.workchain < 0 then shard.workchain + 256 else shard.workchain)
            && k[8 - i] == DigitAt(shard.prefix, i) && k[12 - j] == DigitAt(seqno, j)
  {
    SpanValues();
    SignedWorkchain(shard.workchain);
    BigEndianDigits(shard.prefix, 8, i);
    BigEndianDigits(seqno, 4, j);
    BlockKeyParts(WorkchainByte(shard.workchain), BigEndian(shard.prefix, 8), BigEndian(seqno, 4), 7 - i, 3 - j);
  }

  lemma BlockKeyParts(workchain: Byte, prefix: ByteString, seqno: ByteString, i: nat, j: nat)
    requires i < |prefix| && j < |seqno|
    ensures var k := [workchain] + prefix + seqno;
            k[0] == workchain && k[1 + i] == prefix[i] && k[1 + |prefix| + j] == seqno[j]
  {
  }

  /** An index key, byte by byte: the time, big-endian, the workchain as a signed byte, and the account. */
  lemma TxKeyLayout(workchain: int, tx: TxId, i: nat, j: nat)
    requires InTxBounds(tx) && IsI8(workchain) && i < 8 && j < 32
    ensures var k := TxKey(workchain, tx);
            && k[7 - i] == DigitAt(tx.lt, i)
            && k[8] == WorkchainByte(workchain) == (if workchain < 0 then workchain + 256 else workchain)
            && k[40 - j] == DigitAt(tx.account, j)
  {
    SpanValues();
    SignedWorkchain(workchain);
    BigEndianDigits(tx.lt, 8, i);
    BigEndianDigits(tx.account, ADDRESS_LEN, j);
    TxKeyParts(BigEndian(tx.lt, 8), WorkchainByte(workchain), BigEndian(tx.account, ADDRESS_LEN), 7 - i, 31 - j);
  }

  lemma SignedWorkchain(workchain: int)
    requires IsI8(workchain)
    ensures WorkchainByte(workchain) == if workchain < 0 then workchain + 256 else workchain
  {
  }

  lemma TxKeyParts(lt: ByteString, workchain: Byte, account: ByteString, i: nat, j: nat)
    requires |lt| == 8 && i < 8 && j < |account|
    ensures var k := lt + ([workchain] + account);
            k[i] == lt[i] && k[8] == workchain && k[9 + j] == account[j]
  {
  }

  /** The rest of an index value: the masterchain seqno, little-endian; and a key of 32 bits: big-endian. */
  lemma NumberLayout(shard: ShardIdent, seqno: nat, n: nat, i: nat)
    requires InKeyBounds(shard, seqno) && n < U32_SPAN && i < 4
    ensures TxValue(shard, seqno, n)[13 + i] == DigitAt(n, i) && U32Key(n)[3 - i] == DigitAt(n, i)
  {
    SpanValues();
    LittleEndianDigits(n, 4, i);
    BigEndianDigits(n, 4, i);
  }

  // --- Decoding

  function ShardOfKey(k: ByteString): (shard: ShardIdent)
    requires |k| >= BLOCK_KEY_LEN
    ensures IsI8(shard.workchain) && shard.prefix < U64_SPAN
  {
    SpanValues();
    ShardIdent(SignedByte(k[0]), FromBigEndian(k[1..9]))
  }

  function SeqnoOfKey(k: ByteString): (n: nat)
    requires |k| >= BLOCK_KEY_LEN
    ensures n < U32_SPAN
  {
    SpanValues();
    FromBigEndian(k[9..13])
  }

  function RefOfValue(v: ByteString): (n: nat)
    requires |v| >= BLOCK_KEY_LEN + 4
    ensures n < U32_SPAN
  {
    SpanValues();
    FromLittleEndian(v[13..17])
  }

  lemma BlockKeyDecodes(shard: ShardIdent, seqno: nat)
    requires InKeyBounds(shard, seqno)
    ensures ShardOfKey(BlockKey(shard, seqno)) == shard && SeqnoOfKey(BlockKey(shard, seqno)) == seqno
  {
    SpanValues();
    var k := BlockKey(shard, seqno);
    assert k[1..9] == BigEndian(shard.prefix, 8);
    assert k[9..13] == BigEndian(seqno, 4);
    BigEndianRoundTrip(shard.prefix, 8);
    BigEndianRoundTrip(seqno, 4);
  }

  /** An index value tells the block and the masterchain block it was stored with. */
  lemma TxValueDecodes(shard: ShardIdent, seqno: nat, refByMcSeqno: nat)
    requires InKeyBounds(shard, seqno) && refByMcSeqno < U32_SPAN
    ensures var v := TxValue(shard, seqno, refByMcSeqno);
            && ShardOfKey(v) == shard && SeqnoOfKey(v) == seqno && RefOfValue(v) == refByMcSeqno
            && v[..13] == BlockKey(shard, seqno)
  {
    SpanValues();
    var k, ref := BlockKey(shard, seqno), LittleEndian(refByMcSeqno, 4);
    BlockKeyDecodes(shard, seqno);
    SliceOfFirst(k, ref, 0, 13);
    SliceOfFirst(k, ref, 1, 9);
    SliceOfFirst(k, ref, 9, 13);
    assert TxValue(shard, seqno, refByMcSeqno)[13..17] == ref;
    LittleEndianRoundTrip(refByMcSeqno, 4);
  }

  lemma SliceOfFirst(a: ByteString, b: ByteString, from: nat, to: nat)
    requires from <= to <= |a|
    ensures (a + b)[from..to] == a[from..to]
  {
  }

  lemma AppendIsInjective(a: ByteString, b: ByteString, a': ByteString, b': ByteString)
    requires |a| == |a'| && a + b == a' + b'
    ensures a == a' && b == b'
  {
    assert a == (a + b)[..|a|] && a' == (a' + b')[..|a|];
    assert b == (a + b)[|a|..] && b' == (a' + b')[|a|..];
  }

  lemma TxKeyIsInjective(workchain: int, tx: TxId, workchain': int, tx': TxId)
    requires InTxBounds(tx) && InTxBounds(tx') && IsI8(workchain) && IsI8(workchain')
    requires TxKey(workchain, tx) == TxKey(workchain', tx')
    ensures workchain == workchain' && tx == tx'
  {
    SpanValues();
    var lt, lt' := BigEndian(tx.lt, 8), BigEndian(tx'.lt, 8);
    var account, account' := BigEndian(tx.account, ADDRESS_LEN), BigEndian(tx'.account, ADDRESS_LEN);
    AppendIsInjective(lt, [WorkchainByte(workchain)] + account, lt', [WorkchainByte(workchain')] + account');
    AppendIsInjective([WorkchainByte(workchain)], account, [WorkchainByte(workchain')], account');
    BigEndianOrder(tx.lt, tx'.lt, 8);
    BigEndianOrder(tx.account, tx'.account, ADDRESS_LEN);
    WorkchainRoundTrip(workchain);
    WorkchainRoundTrip(workchain');
  }

  lemma WorkchainRoundTrip(workchain: int)
    requires IsI8(workchain)
    ensures SignedByte(WorkchainByte(workchain)) == workchain
  {
  }

  // --- Deleted ranges

  /** `+ 1` in an unsigned integer of `width` bytes. */
  function Successor(bound: nat, width: nat): (n: nat)
    requires bound < Span(width)
    ensures n < Span(width)
  {
    if bound + 1 < Span(width) then bound + 1 else 0
  }

  function SuccessorKey(bound: nat, width: nat): ByteString
    requires bound < Span(width)
  {
    BigEndian(Successor(bound, width), width)
  }

  function BlockRangeEnd(shard: ShardIdent, bound: nat): ByteString
    requires shard.prefix < U64_SPAN && bound < U32_SPAN
  {
    SpanValues();
    ShardKey(shard) + SuccessorKey(bound, 4)
  }

  function TxRangeEnd(lt: nat): ByteString
    requires lt < U64_SPAN
  {
    SpanValues();
    SuccessorKey(lt, 8) + Zeros(33)
  }

  function TimingRangeEnd(time: nat): ByteString
    requires time < U32_SPAN
  {
    SpanValues();
    SuccessorKey(time, 4)
  }

  lemma {:induction false} NothingBelowZeros(k: ByteString)
    ensures !Below(k, Zeros(|k|))
  {
    if k != [] {
      NothingBelowZeros(k[1..]);
      assert Zeros(|k|)[1..] == Zeros(|k| - 1);
    }
  }

  /** Below the successor of a bound means at most the bound, unless the successor wraps. */
  lemma BelowSuccessor(n: nat, bound: nat, width: nat)
    requires n < Span(width) && bound < Span(width)
    ensures Below(BigEndian(n, width), SuccessorKey(bound, width)) <==> n <= bound && bound + 1 < Span(width)
    ensures n == bound + 1 <==> BigEndian(n, width) == SuccessorKey(bound, width) && bound + 1 < Span(width)
  {
    BigEndianOrder(n, Successor(bound, width), width);
  }

  /** The block range deletes exactly the same shard's blocks with seqno up to the bound. */
  lemma BlockRangeExact(shard: ShardIdent, seqno: nat, at: ShardIdent, bound: nat)
    requires InKeyBounds(shard, seqno) && InKeyBounds(at, bound)
    ensures InRange(BlockKey(shard, seqno), BlockKey(at, 0), BlockRangeEnd(at, bound)) <==>
            shard == at && seqno <= bound && bound + 1 < U32_SPAN
  {
    SpanValues();
    var from := BigEndian(0, 4);
    BelowAppend(ShardKey(shard), ShardKey(at), BigEndian(seqno, 4), from);
    BelowAppend(ShardKey(shard), ShardKey(at), BigEndian(seqno, 4), SuccessorKey(bound, 4));
    BigEndianOrder(seqno, 0, 4);
    BelowSuccessor(seqno, bound, 4);
    BelowIsIrreflexive(ShardKey(at));
    if ShardKey(shard) == ShardKey(at) {
      var a, b := BlockKey(shard, 0), BlockKey(at, 0);
      BlockKeyDecodes(shard, 0);
      BlockKeyDecodes(at, 0);
      assert a == b;
    }
  }

  /** The transactions range deletes exactly the logical times up to the bound, for any account. */
  lemma TxRangeExact(workchain: int, tx: TxId, bound: nat)
    requires InTxBounds(tx) && bound < U64_SPAN
    ensures InRange(TxKey(workchain, tx), Zeros(TX_KEY_LEN), TxRangeEnd(bound)) <==>
              tx.lt <= bound && bound + 1 < U64_SPAN
  {
    SpanValues();
    var rest := [WorkchainByte(workchain)] + BigEndian(tx.account, ADDRESS_LEN);
    NothingBelowZeros(TxKey(workchain, tx));
    NothingBelowZeros(rest);
    BelowAppend(BigEndian(tx.lt, 8), SuccessorKey(bound, 8), rest, Zeros(33));
    BelowSuccessor(tx.lt, bound, 8);
  }

  lemma TxRangeAtZero(bound: nat)
    requires bound < U64_SPAN
    ensures InTxBounds(TxId(0, 0))
    ensures InRange(TxKey(0, TxId(0, 0)), Zeros(TX_KEY_LEN), TxRangeEnd(bound)) <==> bound + 1 < U64_SPAN
  {
    SpanValues();
    TxRangeExact(0, TxId(0, 0), bound);
  }

  /** The timings range deletes exactly the times up to the bound. */
  lemma TimingRangeExact(time: nat, bound: nat)
    requires time < U32_SPAN && bound < U32_SPAN
    ensures InRange(U32Key(time), Zeros(4), TimingRangeEnd(bound)) <==> time <= bound && bound + 1 < U32_SPAN
  {
    SpanValues();
    NothingBelowZeros(U32Key(time));
    BelowSuccessor(time, bound, 4);
  }

  /** The block range deletes exactly what its bound says. */
  ghost predicate BlockRangeMeansBound(at: ShardIdent, bound: nat)
    requires InKeyBounds(at, bound)
  {
    forall shard, seqno: nat | InKeyBounds(shard, seqno) ::
      InRange(BlockKey(shard, seqno), BlockKey(at, 0), BlockRangeEnd(at, bound)) <==> shard == at && seqno <= bound
  }

  ghost predicate TxRangeMeansBound(bound: nat)
    requires bound < U64_SPAN
  {
    forall workchain: int, tx | InTxBounds(tx) ::
      InRange(TxKey(workchain, tx), Zeros(TX_KEY_LEN), TxRangeEnd(bound)) <==> tx.lt <= bound
  }

  ghost predicate TimingRangeMeansBound(bound: nat)
    requires bound < U32_SPAN
  {
    forall time: nat | time < U32_SPAN :: InRange(U32Key(time), Zeros(4), TimingRangeEnd(bound)) <==> time <= bound
  }

  lemma BlockRangeMeans(at: ShardIdent, bound: nat)
    requires InKeyBounds(at, bound)
    ensures BlockRangeMeansBound(at, bound) <==> bound + 1 < U32_SPAN
  {
    BlockRangeExact(at, 0, at, bound);
    if bound + 1 < U32_SPAN {
      forall shard, seqno: nat | InKeyBounds(shard, seqno)
        ensures InRange(BlockKey(shard, seqno), BlockKey(at, 0), BlockRangeEnd(at, bound)) <==>
                  shard == at && seqno <= bound
      {
        BlockRangeExact(shard, seqno, at, bound);
      }
    }
  }

  lemma TxRangeMeans(bound: nat)
    requires bound < U64_SPAN
    ensures TxRangeMeansBound(bound) <==> bound + 1 < U64_SPAN
  {
    TxRangeAtZero(bound);
    if bound + 1 < U64_SPAN {
      forall workchain: int, tx | InTxBounds(tx)
        ensures InRange(TxKey(workchain, tx), Zeros(TX_KEY_LEN), TxRangeEnd(bound)) <==> tx.lt <= bound
      {
        TxRangeExact(workchain, tx, bound);
      }
    }
  }

  lemma TimingRangeMeans(bound: nat)
    requires bound < U32_SPAN
    ensures TimingRangeMeansBound(bound) <==> bound + 1 < U32_SPAN
  {
    TimingRangeExact(0, bound);
    if bound + 1 < U32_SPAN {
      forall time: nat | time < U32_SPAN
        ensures InRange(U32Key(time), Zeros(4), TimingRangeEnd(bound)) <==> time <= bound
      {
        TimingRangeExact(time, bound);
      }
    }
  }

  /** The three ranges delete what their bounds say exactly when the bounds are below the largest
      integers; at a largest integer the range is empty and everything stays. */
  lemma RangesDeleteUpToTheBound(at: ShardIdent, seqnoBound: nat, ltBound: nat, timeBound: nat)
    requires InKeyBounds(at, seqnoBound) && ltBound < U64_SPAN && timeBound < U32_SPAN
    ensures BlockRangeMeansBound(at, seqnoBound) <==> seqnoBound + 1 < U32_SPAN
    ensures TxRangeMeansBound(ltBound) <==> ltBound + 1 < U64_SPAN
    ensures TimingRangeMeansBound(timeBound) <==> timeBound + 1 < U32_SPAN
  {
    BlockRangeMeans(at, seqnoBound);
    TxRangeMeans(ltBound);
    TimingRangeMeans(timeBound);
  }

  // --- Integer widths of transactions

  lemma {:induction false} PowersAndSpans(bytes: nat)
    ensures PowerOfTwo(8 * bytes) == Span(bytes)
  {
    if bytes > 0 {
      PowersAndSpans(bytes - 1);
      var p := 8 * (bytes - 1);
      assert PowerOfTwo(p + 2) == 4 * PowerOfTwo(p);
      assert PowerOfTwo(p + 4) == 4 * PowerOfTwo(p + 2);
      assert PowerOfTwo(p + 6) == 4 * PowerOfTwo(p + 4);
      assert PowerOfTwo(p + 8) == 4 * PowerOfTwo(p + 6);
    }
  }

  lemma FitsBytes(n: nat, bits: nat, bytes: nat)
    requires bits == 8 * bytes
    ensures n < PowerOfTwo(bits) <==> n < Span(bytes)
  {
    PowersAndSpans(bytes);
  }

  lemma TxBounds(tx: TxId)
    ensures InTxBounds(tx) <==> tx.account < PowerOfTwo(ACCOUNT_BITS) && tx.lt < PowerOfTwo(LT_BITS)
  {
    SpanValues();
    FitsBytes(tx.account, ACCOUNT_BITS, ADDRESS_LEN);
    FitsBytes(tx.lt, LT_BITS, 8);
  }
}
