// LEB128 variable-length integers (WebAssembly Core Specification, section 5.2.2),
// with the exact behaviour pinned down by leb128/leb128_test.go: encoders return a
// fresh byte sequence, decoders pull bytes from a reader for at most ten bytes.

module Leb128 {
  import opened Base

  /** The decoders give up after this many bytes. */
  const MAX_LEN: nat := 10

  function Pow128(n: nat): (r: int)
    ensures r >= 1
  {
    if n == 0 then 1 else 128 * Pow128(n - 1)
  }

  /** The little-endian value of the 7-bit groups of s (the high bit of each byte ignored). */
  function Groups(s: seq<byte>): nat
  {
    if s == [] then 0 else s[0] % 128 + 128 * Groups(s[1..])
  }

  /** Every byte but the last carries the continuation bit; the last does not. */
  predicate WellFormedRun(e: seq<byte>) {
    |e| >= 1 && e[|e| - 1] < 128 && forall i :: 0 <= i < |e| - 1 ==> e[i] >= 128
  }

  lemma DivMod128(v: int, q: int, r: int)
    requires v == 128 * q + r && 0 <= r < 128
    ensures v / 128 == q && v % 128 == r
  {
  }

  lemma DivMod256(v: int, q: int, r: int)
    requires v == 256 * q + r && 0 <= r < 256
    ensures v / 256 == q && v % 256 == r
  {
  }

  // ---------------------------------------------------------------------------
  // Encoders
  // ---------------------------------------------------------------------------

  /** Unsigned LEB128: emit 7-bit groups, low first, continuation bit on all but the last. */
  function EncodeU64(v: u64): (r: seq<byte>)
    ensures |r| >= 1
    decreases v
  {
    if v < 128 then [v] else [v % 128 + 128] + EncodeU64(v / 128)
  }

  function Magnitude(v: int): nat {
    if v < 0 then -v else v
  }

  /** Signed LEB128: stop once the remaining value is all sign bits and the last group's bit 6 agrees. */
  function EncodeS64(v: i64): (r: seq<byte>)
    ensures |r| >= 1
    decreases Magnitude(v)
  {
    var b := v % 128;
    var rest := v / 128;
    if (rest == 0 && b < 64) || (rest == -1 && b >= 64) then [b]
    else [b + 128] + EncodeS64(rest)
  }

  /** Putting a byte with the continuation bit in front of a run gives a run. */
  lemma ConsRun(b: byte, e: seq<byte>)
    requires b >= 128 && WellFormedRun(e)
    ensures WellFormedRun([b] + e)
  {
    var r := [b] + e;
    forall i | 0 <= i < |r| - 1
      ensures r[i] >= 128
    {
      if i > 0 {
        assert r[i] == e[i - 1];
      }
    }
  }

  lemma GroupsCons(b: byte, e: seq<byte>)
    ensures Groups([b] + e) == b % 128 + 128 * Groups(e)
  {
    assert ([b] + e)[1..] == e;
  }

  /** An unsigned encoding is a well-formed run whose groups are the value. */
  lemma {:induction false} EncodeU64Run(v: u64)
    ensures WellFormedRun(EncodeU64(v))
    ensures Groups(EncodeU64(v)) == v
    decreases v
  {
    if v >= 128 {
      var e := EncodeU64(v / 128);
      var b := v % 128 + 128;
      EncodeU64Run(v / 128);
      ConsRun(b, e);
      GroupsCons(b, e);
      DivMod128(b, 1, v % 128);
    }
  }

  /** A signed encoding is a well-formed run whose last byte has bit 6 set exactly for a
      negative value. */
  lemma {:induction false} EncodeS64Run(v: i64)
    ensures var r := EncodeS64(v); WellFormedRun(r) && (r[|r| - 1] >= 64) == (v < 0)
    decreases Magnitude(v)
  {
    var b := v % 128;
    var rest := v / 128;
    if !((rest == 0 && b < 64) || (rest == -1 && b >= 64)) {
      var e := EncodeS64(rest);
      EncodeS64Run(rest);
      ConsRun(b + 128, e);
      assert EncodeS64(v) == [b + 128] + e;
    }
  }

  /** The groups of a signed encoding are the value, offset by 128^length when negative. */
  lemma {:induction false} EncodeS64Groups(v: i64)
    ensures var r := EncodeS64(v); Groups(r) == if v < 0 then v + Pow128(|r|) else v
    decreases Magnitude(v)
  {
    var b := v % 128;
    var rest := v / 128;
    if (rest == 0 && b < 64) || (rest == -1 && b >= 64) {
      assert Pow128(1) == 128;
    } else {
      var e := EncodeS64(rest);
      assert EncodeS64(v) == [b + 128] + e;
      assert Pow128(|e| + 1) == 128 * Pow128(|e|);
      EncodeS64Groups(rest);
      GroupsCons(b + 128, e);
      DivMod128(b + 128, 1, b);
      hide *;
      assert v == 128 * rest + b && (v < 0 <==> rest < 0);
      if rest < 0 {
        assert 128 * (rest + Pow128(|e|)) == 128 * rest + 128 * Pow128(|e|);
      }
    }
  }

  // ---------------------------------------------------------------------------
  // Decoders: specification
  // ---------------------------------------------------------------------------

  /** Where the decoder stops: n bytes taken; on a byte without the continuation bit,
      at the end of the input, or with an overflow once ten continuation bytes were taken. */
  datatype Scan = Scan(n: nat, terminated: bool, overflow: bool)

  /** The result of a decoder call, as Go's (value, bytes read, error) triple. */
  datatype Decoded = Decoded(value: int, n: nat, overflow: bool)

  function StopAt(s: seq<byte>, k: nat): (r: Scan)
    requires k <= MAX_LEN && k <= |s|
    ensures k <= r.n <= MAX_LEN
    ensures r.overflow ==> r.n == MAX_LEN && !r.terminated
    ensures r.n <= |s|
    ensures r.terminated ==> 0 < r.n <= |s| && s[r.n - 1] < 128
    decreases MAX_LEN - k
  {
    if k == MAX_LEN then Scan(MAX_LEN, false, true)
    else if k == |s| then Scan(k, false, false)
    else if s[k] < 128 then Scan(k + 1, true, false)
    else StopAt(s, k + 1)
  }

  /** Go's int64(x) for a 64-bit pattern x. */
  function ToI64(x: int): (r: i64)
    requires 0 <= x < U64_LIMIT
  {
    if x <= I64_MAX then x else x - U64_LIMIT
  }

  /** One step of the decoders' accumulation, res |= (b & 0x7f) << (7 * k) on 64 bits. */
  function Accumulate(res: int, b: byte, k: nat): int {
    (res + (b % 128) * Pow128(k)) % U64_LIMIT
  }

  /** DecodeU64 once k bytes were pulled and their groups accumulated into res. */
  function UnsignedFrom(s: seq<byte>, k: nat, res: int): (r: Decoded)
    requires k <= MAX_LEN && k <= |s| && 0 <= res < U64_LIMIT
    ensures k <= r.n <= |s| && r.n <= MAX_LEN
    ensures 0 <= r.value < U64_LIMIT
    ensures r.overflow ==> r.value == 0 && r.n == MAX_LEN
    decreases MAX_LEN - k
  {
    if k == MAX_LEN then Decoded(0, MAX_LEN, true)
    else if k == |s| then Decoded(res, k, false)
    else if s[k] < 128 then Decoded(Accumulate(res, s[k], k), k + 1, false)
    else UnsignedFrom(s, k + 1, Accumulate(res, s[k], k))
  }

  /** What DecodeU64 returns for a reader holding s. */
  function UnsignedDecoding(s: seq<byte>): (r: Decoded)
    ensures r.n <= |s| && r.n <= MAX_LEN
    ensures 0 <= r.value < U64_LIMIT
    ensures r.overflow ==> r.value == 0 && r.n == MAX_LEN
  {
    UnsignedFrom(s, 0, 0)
  }

  /** DecodeS64 once k bytes were pulled and their groups accumulated into res; the value
      is sign-extended from bit 6 of the terminating byte. */
  function SignedFrom(s: seq<byte>, k: nat, res: int): (r: Decoded)
    requires k <= MAX_LEN && k <= |s| && 0 <= res < U64_LIMIT
    ensures k <= r.n <= |s| && r.n <= MAX_LEN
    ensures r.overflow ==> r.value == 0 && r.n == MAX_LEN
    decreases MAX_LEN - k
  {
    if k == MAX_LEN then Decoded(0, MAX_LEN, true)
    else if k == |s| then Decoded(SignExtend(res, k, false), k, false)
    else if s[k] < 128 then Decoded(SignExtend(Accumulate(res, s[k], k), k + 1, s[k] >= 64), k + 1, false)
    else SignedFrom(s, k + 1, Accumulate(res, s[k], k))
  }

  /** What DecodeS64 returns for a reader holding s. */
  function SignedDecoding(s: seq<byte>): (r: Decoded)
    ensures r.n <= |s| && r.n <= MAX_LEN
    ensures r.overflow ==> r.value == 0 && r.n == MAX_LEN
  {
    SignedFrom(s, 0, 0)
  }

  /** Reads n groups' worth of 64-bit pattern as a signed number: below 64 bits, a negative
      sign fills the upper bits with ones; with all 70 bits read, the pattern is int64(bits). */
  function SignExtend(bits: int, n: nat, negative: bool): int
    requires 0 <= bits < U64_LIMIT
  {
    if n >= MAX_LEN then ToI64(bits)
    else if negative then bits - Pow128(n)
    else bits
  }

  lemma SignExtendRange(t: seq<byte>, bits: int)
    requires |t| <= MAX_LEN && bits == Groups(t) % U64_LIMIT
    ensures forall negative: bool :: I64_MIN <= SignExtend(bits, |t|, negative) <= I64_MAX
  {
    if |t| < MAX_LEN {
      GroupsBound(t);
      PowBound(|t|);
    }
  }

  // ---------------------------------------------------------------------------
  // Decoders: the byte-pulling loops
  // ---------------------------------------------------------------------------

  lemma {:induction false} GroupsSnoc(t: seq<byte>, b: byte)
    ensures Groups(t + [b]) == Groups(t) + (b % 128) * Pow128(|t|)
    decreases |t|
  {
    if t == [] {
      assert t + [b] == [b];
    } else {
      var r := t[1..];
      assert (t + [b])[1..] == r + [b];
      assert Groups(t + [b]) == t[0] % 128 + 128 * Groups(r + [b]);
      assert Groups(t) == t[0] % 128 + 128 * Groups(r);
      assert Pow128(|t|) == 128 * Pow128(|r|);
      hide Groups, Pow128;
      GroupsSnoc(r, b);
      var g, c, p := Groups(r), b % 128, Pow128(|r|);
      assert 128 * (g + c * p) == 128 * g + c * (128 * p);
    }
  }

  lemma {:induction false} GroupsBound(t: seq<byte>)
    ensures Groups(t) < Pow128(|t|)
    decreases |t|
  {
    if t != [] {
      GroupsBound(t[1..]);
    }
  }

  lemma ModAdd(a: int, x: int)
    ensures (a % U64_LIMIT + x) % U64_LIMIT == (a + x) % U64_LIMIT
  {
  }

  /** One step of the decoders' accumulation: res |= (b & 0x7f) << (7 * n), on 64 bits. */
  lemma AccumulateStep(s: seq<byte>, n: nat, res: int)
    requires n < |s|
    requires res == Groups(s[..n]) % U64_LIMIT
    ensures (res + (s[n] % 128) * Pow128(n)) % U64_LIMIT == Groups(s[..n + 1]) % U64_LIMIT
  {
    assert s[..n + 1] == s[..n] + [s[n]];
    GroupsSnoc(s[..n], s[n]);
    ModAdd(Groups(s[..n]), (s[n] % 128) * Pow128(n));
  }

  /** Pulls an unsigned LEB128 value from a reader holding `input`. */
  method DecodeU64(input: seq<byte>) returns (value: u64, n: nat, overflow: bool)
    ensures Decoded(value, n, overflow) == UnsignedDecoding(input)
  {
    var res := 0;
    n := 0;
    while true
      invariant n <= MAX_LEN && n <= |input| && 0 <= res < U64_LIMIT
      invariant UnsignedFrom(input, n, res) == UnsignedDecoding(input)
      decreases MAX_LEN - n
    {
      if n == MAX_LEN {
        return 0, n, true;
      }
      if n == |input| {
        break;  // the reader reports end of input
      }
      var b := input[n];
      res := (res + (b % 128) * Pow128(n)) % U64_LIMIT;
      n := n + 1;
      if b < 128 {
        break;
      }
    }
    return res, n, false;
  }

  /** Pulls a signed LEB128 value from a reader holding `input`. */
  method DecodeS64(input: seq<byte>) returns (value: i64, n: nat, overflow: bool)
    ensures Decoded(value, n, overflow) == SignedDecoding(input)
  {
    var res := 0;
    n := 0;
    assert input[..0] == [];
    while true
      invariant n <= MAX_LEN && n <= |input| && res == Groups(input[..n]) % U64_LIMIT
      invariant SignedFrom(input, n, res) == SignedDecoding(input)
      decreases MAX_LEN - n
    {
      if n == MAX_LEN {
        return 0, n, true;
      }
      if n == |input| {
        SignExtendRange(input[..n], res);
        return SignExtend(res, n, false), n, false;
      }
      var b := input[n];
      AccumulateStep(input, n, res);
      res := (res + (b % 128) * Pow128(n)) % U64_LIMIT;
      n := n + 1;
      if b < 128 {
        SignExtendRange(input[..n], res);
        return SignExtend(res, n, b >= 64), n, false;
      }
    }
  }

  /** The decoders' recursion agrees with the stop scan and the groups of the bytes taken. */
  lemma {:induction false} UnsignedFromGroups(s: seq<byte>, k: nat, res: int)
    requires k <= MAX_LEN && k <= |s| && res == Groups(s[..k]) % U64_LIMIT
    ensures var st := StopAt(s, k);
      UnsignedFrom(s, k, res) == if st.overflow then Decoded(0, MAX_LEN, true) else Decoded(Groups(s[..st.n]) % U64_LIMIT, st.n, false)
    decreases MAX_LEN - k
  {
    if k < MAX_LEN && k < |s| {
      AccumulateStep(s, k, res);
      if s[k] >= 128 {
        UnsignedFromGroups(s, k + 1, Accumulate(res, s[k], k));
      }
    }
  }

  lemma {:induction false} SignedFromGroups(s: seq<byte>, k: nat, res: int)
    requires k <= MAX_LEN && k <= |s| && res == Groups(s[..k]) % U64_LIMIT
    ensures var st := StopAt(s, k);
      !st.overflow ==> 0 <= Groups(s[..st.n]) % U64_LIMIT < U64_LIMIT
    ensures var st := StopAt(s, k);
      SignedFrom(s, k, res) == if st.overflow then Decoded(0, MAX_LEN, true)
        else Decoded(SignExtend(Groups(s[..st.n]) % U64_LIMIT, st.n, st.terminated && s[st.n - 1] >= 64), st.n, false)
    decreases MAX_LEN - k
  {
    if k < MAX_LEN && k < |s| {
      AccumulateStep(s, k, res);
      if s[k] >= 128 {
        SignedFromGroups(s, k + 1, Accumulate(res, s[k], k));
      }
    }
  }

  /** DecodeU64 in terms of the stop scan: the groups of the bytes up to the stop, on 64 bits. */
  lemma UnsignedDecodingGroups(s: seq<byte>)
    ensures var st := StopAt(s, 0);
      UnsignedDecoding(s) == if st.overflow then Decoded(0, MAX_LEN, true) else Decoded(Groups(s[..st.n]) % U64_LIMIT, st.n, false)
  {
    assert s[..0] == [];
    UnsignedFromGroups(s, 0, 0);
  }

  /** DecodeS64 in terms of the stop scan: those groups, sign-extended when the run ended on
      a byte with bit 6 set. */
  lemma SignedDecodingGroups(s: seq<byte>)
    ensures var st := StopAt(s, 0);
      SignedDecoding(s) == if st.overflow then Decoded(0, MAX_LEN, true)
        else Decoded(SignExtend(Groups(s[..st.n]) % U64_LIMIT, st.n, st.terminated && s[st.n - 1] >= 64), st.n, false)
  {
    assert s[..0] == [];
    SignedFromGroups(s, 0, 0);
  }

  /** DecodeS64's value is an int64. */
  lemma SignedDecodingRange(s: seq<byte>)
    ensures I64_MIN <= SignedDecoding(s).value <= I64_MAX
  {
    SignedDecodingGroups(s);
    var st := StopAt(s, 0);
    if !st.overflow {
      SignExtendRange(s[..st.n], Groups(s[..st.n]) % U64_LIMIT);
    }
  }

  lemma {:induction false} PowBound(n: nat)
    requires n < MAX_LEN
    ensures Pow128(n) <= 0x8000_0000_0000_0000
  {
    if n > 0 {
      PowBound(n - 1);
      PowMonotone(n - 1, 8);
    }
  }

  lemma {:induction false} PowMonotone(a: nat, b: nat)
    requires a <= b
    ensures Pow128(a) <= Pow128(b)
    decreases b
  {
    if a < b {
      PowMonotone(a, b - 1);
    }
  }

  // ---------------------------------------------------------------------------
  // Properties
  // ---------------------------------------------------------------------------

  /** A well-formed run of at most ten bytes is decoded exactly: the decoder stops at its end. */
  lemma {:induction false} StopAtRun(s: seq<byte>, j: nat, e: seq<byte>)
    requires WellFormedRun(e) && j + |e| <= MAX_LEN && j + |e| <= |s|
    requires s[j..j + |e|] == e
    ensures StopAt(s, j) == Scan(j + |e|, true, false)
    decreases |e|
  {
    assert s[j] == e[0];
    if |e| > 1 {
      assert s[j + 1..j + 1 + |e[1..]|] == e[1..];
      StopAtRun(s, j + 1, e[1..]);
    }
  }

  /** The decoder overflows exactly when the first ten bytes all carry the continuation bit. */
  lemma {:induction false} StopAtOverflow(s: seq<byte>, k: nat)
    requires k <= MAX_LEN && k <= |s|
    ensures StopAt(s, k).overflow <==> |s| >= MAX_LEN && forall i :: k <= i < MAX_LEN ==> s[i] >= 128
    decreases MAX_LEN - k
  {
    if k < MAX_LEN && k < |s| && s[k] >= 128 {
      StopAtOverflow(s, k + 1);
    }
  }

  lemma UnsignedOverflowIff(s: seq<byte>)
    ensures UnsignedDecoding(s).overflow <==> |s| >= MAX_LEN && forall i :: 0 <= i < MAX_LEN ==> s[i] >= 128
    ensures UnsignedDecoding(s).overflow ==> UnsignedDecoding(s) == Decoded(0, 10, true)
  {
    UnsignedDecodingGroups(s);
    StopAtOverflow(s, 0);
  }

  lemma SignedOverflowIff(s: seq<byte>)
    ensures SignedDecoding(s).overflow <==> |s| >= MAX_LEN && forall i :: 0 <= i < MAX_LEN ==> s[i] >= 128
    ensures SignedDecoding(s).overflow ==> SignedDecoding(s) == Decoded(0, 10, true)
  {
    SignedDecodingGroups(s);
    StopAtOverflow(s, 0);
  }

  lemma {:induction false} EncodeU64Length(v: u64, k: nat)
    requires k >= 1 && v < Pow128(k)
    ensures |EncodeU64(v)| <= k
    decreases k
  {
    if v >= 128 {
      EncodeU64Length(v / 128, k - 1);
    }
  }

  /** A reader that starts with a well-formed run of at most ten bytes decodes that run. */
  lemma UnsignedDecodingOfRun(s: seq<byte>, e: seq<byte>)
    requires WellFormedRun(e) && |e| <= MAX_LEN && |e| <= |s| && s[..|e|] == e
    ensures UnsignedDecoding(s) == Decoded(Groups(e) % U64_LIMIT, |e|, false)
  {
    assert s[0..|e|] == e;
    StopAtRun(s, 0, e);
    UnsignedDecodingGroups(s);
  }

  /** Unsigned round trip: decoding an encoding, whatever follows it, gives back the value
      and reports the encoding's length as the bytes consumed. */
  lemma UnsignedRoundTrip(v: u64, tail: seq<byte>)
    ensures UnsignedDecoding(EncodeU64(v) + tail) == Decoded(v, |EncodeU64(v)|, false)
  {
    var e := EncodeU64(v);
    EncodeU64Run(v);
    EncodeU64Short(v);
    assert (e + tail)[..|e|] == e;
    UnsignedDecodingOfRun(e + tail, e);
    assert Groups(e) % U64_LIMIT == v;
  }

  /** No 64-bit value needs more than ten bytes. */
  lemma EncodeU64Short(v: u64)
    ensures |EncodeU64(v)| <= MAX_LEN
  {
    assert Pow128(10) == 0x40_0000_0000_0000_0000;
    EncodeU64Length(v, 10);
  }

  lemma {:induction false} EncodeS64Length(v: i64, k: nat)
    requires -64 * Pow128(k) <= v < 64 * Pow128(k)
    ensures |EncodeS64(v)| <= k + 1
    decreases k
  {
    var b := v % 128;
    var rest := v / 128;
    if k > 0 && !((rest == 0 && b < 64) || (rest == -1 && b >= 64)) {
      EncodeS64Length(rest, k - 1);
    }
  }

  /** A reader that starts with a well-formed run of at most ten bytes decodes that run. */
  lemma SignedDecodingOfRun(s: seq<byte>, e: seq<byte>)
    requires WellFormedRun(e) && |e| <= MAX_LEN && |e| <= |s| && s[..|e|] == e
    ensures SignedDecoding(s) == Decoded(SignExtend(Groups(e) % U64_LIMIT, |e|, e[|e| - 1] >= 64), |e|, false)
  {
    assert s[0..|e|] == e;
    StopAtRun(s, 0, e);
    SignedDecodingGroups(s);
  }

  lemma SignExtendFull(v: i64, g: int)
    requires g == if v < 0 then v + 64 * U64_LIMIT else v
    ensures 0 <= g % U64_LIMIT < U64_LIMIT && ToI64(g % U64_LIMIT) == v
  {
  }

  lemma SignExtendShort(v: i64, g: int, p: int)
    requires 1 <= p <= 0x8000_0000_0000_0000 && 0 <= g < p
    requires g == if v < 0 then v + p else v
    ensures g % U64_LIMIT == g && (if v < 0 then g - p else g) == v
  {
  }

  /** Sign extension undoes the offset EncodeS64 leaves in the groups of a negative value. */
  lemma SignExtendEncoding(v: i64)
    ensures var e := EncodeS64(v); SignExtend(Groups(e) % U64_LIMIT, |e|, e[|e| - 1] >= 64) == v
  {
    var e := EncodeS64(v);
    var g := Groups(e);
    EncodeS64Run(v);
    EncodeS64Groups(v);
    assert Pow128(9) == 0x8000_0000_0000_0000;
    EncodeS64Length(v, 9);
    if |e| == MAX_LEN {
      assert Pow128(10) == 64 * U64_LIMIT;
      SignExtendFull(v, g);
    } else {
      GroupsBound(e);
      PowBound(|e|);
      SignExtendShort(v, g, Pow128(|e|));
    }
  }

  /** Signed round trip, the counterpart of UnsignedRoundTrip. */
  lemma SignedRoundTrip(v: i64, tail: seq<byte>)
    ensures SignedDecoding(EncodeS64(v) + tail) == Decoded(v, |EncodeS64(v)|, false)
  {
    var e := EncodeS64(v);
    assert Pow128(9) == 0x8000_0000_0000_0000;
    EncodeS64Length(v, 9);
    EncodeS64Run(v);
    assert (e + tail)[..|e|] == e;
    SignedDecodingOfRun(e + tail, e);
    SignExtendEncoding(v);
  }

  // ---------------------------------------------------------------------------
  // The concrete cases of leb128_test.go
  // ---------------------------------------------------------------------------

  /** Values below 128 take one byte; values in [128, 512) take two: low group with the
      continuation bit, then v >> 7 (1, 2 or 3). */
  lemma EncodeU64LowRange(v: u64)
    requires v < 512
    ensures v < 128 ==> EncodeU64(v) == [v]
    ensures v >= 128 ==> EncodeU64(v) == [v % 128 + 128, v / 128] && 1 <= v / 128 <= 3
  {
  }

  /** k copies of b, then last. */
  function Run(b: byte, k: nat, last: byte): seq<byte> {
    if k == 0 then [last] else [b] + Run(b, k - 1, last)
  }

  /** 2 * 128^k - 1 is k groups of all ones, then a final 0x01. */
  lemma {:induction false} EncodeU64AllOnes(k: nat)
    requires 2 * Pow128(k) - 1 < U64_LIMIT
    ensures EncodeU64(2 * Pow128(k) - 1) == Run(0xff, k, 0x01)
    decreases k
  {
    if k > 0 {
      var q := 2 * Pow128(k - 1) - 1;
      var v := 2 * Pow128(k) - 1;
      DivMod128(v, q, 127);
      EncodeU64AllOnes(k - 1);
      assert EncodeU64(v) == [0xff] + EncodeU64(q);
    }
  }

  lemma EncodeU64Max()
    ensures EncodeU64(0xffff_ffff_ffff_ffff) == [0xff, 0xff, 0xff, 0xff, 0xff, 0xff, 0xff, 0xff, 0xff, 0x01]
  {
    assert Pow128(9) == 0x8000_0000_0000_0000;
    EncodeU64AllOnes(9);
  }

  /** 128^k - 1 (k >= 1) is k groups of all ones, then 0x00 to keep the sign positive. */
  lemma {:induction false} EncodeS64AllOnes(k: nat)
    requires Pow128(k) - 1 <= I64_MAX
    ensures EncodeS64(Pow128(k) - 1) == Run(0xff, k, 0x00)
    decreases k
  {
    if k > 0 {
      var q := Pow128(k - 1) - 1;
      var v := Pow128(k) - 1;
      DivMod128(v, q, 127);
      EncodeS64AllOnes(k - 1);
      assert EncodeS64(v) == [0xff] + EncodeS64(q);
    }
  }

  /** -128^k (k >= 1) is k groups of zeros with the continuation bit, then 0x7f. */
  lemma {:induction false} EncodeS64PowerNeg(k: nat)
    requires k >= 1 && -Pow128(k) >= I64_MIN
    ensures EncodeS64(-Pow128(k)) == Run(0x80, k, 0x7f)
    decreases k
  {
    var q := -Pow128(k - 1);
    var v := -Pow128(k);
    DivMod128(v, q, 0);
    if k > 1 {
      EncodeS64PowerNeg(k - 1);
      assert EncodeS64(v) == [0x80] + EncodeS64(q);
    } else {
      assert EncodeS64(-1) == [0x7f];
    }
  }

  lemma UnsignedDecodingCases()
    ensures UnsignedDecoding([]) == Decoded(0, 0, false)
    ensures UnsignedDecoding([0x78, 0x10, 0xf, 0xa, 0xb, 0x90, 0x01, 0, 0xff, 0xff, 0xff]) == Decoded(120, 1, false)
    ensures UnsignedDecoding([0xff, 0xff, 0xff, 0xff, 0xff, 0xff, 0xff, 0xff, 0xff, 0xff, 0xff, 0xff, 0x0]) == Decoded(0, 10, true)
  {
    UnsignedOverflowIff([0xff, 0xff, 0xff, 0xff, 0xff, 0xff, 0xff, 0xff, 0xff, 0xff, 0xff, 0xff, 0x0]);
  }

  /** Outside [-64, 64) and inside [-512, 512), a value takes two bytes: its low group with
      the continuation bit, then the remaining group. */
  lemma EncodeS64TwoBytes(v: i64)
    requires -512 <= v < -64 || 64 <= v < 512
    ensures EncodeS64(v) == [v % 128 + 128, (v / 128) % 128]
  {
    assert EncodeS64(v) == [v % 128 + 128] + EncodeS64(v / 128);
  }

  /** The bytes of every value in [-512, 512), band by band as the tests list them (Go's
      `byte(x)` is `x % 256`), and each decodes back with its length. */
  lemma EncodeS64LowRange(v: i64)
    requires -512 <= v < 512
    ensures 0 <= v < 64 ==> EncodeS64(v) == [v]
    ensures 64 <= v < 128 ==> EncodeS64(v) == [v + 128, 0]
    ensures 128 <= v < 256 ==> EncodeS64(v) == [v % 256, 1]
    ensures 256 <= v < 384 ==> EncodeS64(v) == [(v + 128) % 256, 2]
    ensures 384 <= v < 512 ==> EncodeS64(v) == [v % 256, 3]
    ensures -64 <= v < 0 ==> EncodeS64(v) == [v + 128]
    ensures -128 <= v < -64 ==> EncodeS64(v) == [v % 256, 127]
    ensures -256 <= v < -128 ==> EncodeS64(v) == [(v + 128) % 256, 126]
    ensures -384 <= v < -256 ==> EncodeS64(v) == [v % 256, 125]
    ensures -512 <= v < -384 ==> EncodeS64(v) == [(v + 128) % 256, 124]
    ensures SignedDecoding(EncodeS64(v)) == Decoded(v, if -64 <= v < 64 then 1 else 2, false)
  {
    SignedRoundTrip(v, []);
    assert EncodeS64(v) + [] == EncodeS64(v);
    if -64 <= v < 64 {
      assert |EncodeS64(v)| == 1;
    } else {
      EncodeS64TwoBytes(v);
      hide *;
      if v < -384 {
        DivMod128(v, -4, v + 512);
        DivMod256(v + 128, -2, v + 640);
      } else if v < -256 {
        DivMod128(v, -3, v + 384);
        DivMod256(v, -2, v + 512);
      } else if v < -128 {
        DivMod128(v, -2, v + 256);
        DivMod256(v + 128, -1, v + 384);
      } else if v < -64 {
        DivMod128(v, -1, v + 128);
        DivMod256(v, -1, v + 256);
      } else if v < 128 {
        DivMod128(v, 0, v);
      } else if v < 256 {
        DivMod128(v, 1, v - 128);
        DivMod256(v, 0, v);
      } else if v < 384 {
        DivMod128(v, 2, v - 256);
        DivMod256(v + 128, 1, v - 128);
      } else {
        DivMod128(v, 3, v - 384);
        DivMod256(v, 1, v - 256);
      }
    }
  }

  lemma EncodeS64Extremes()
    ensures EncodeS64(I64_MAX) == [0xff, 0xff, 0xff, 0xff, 0xff, 0xff, 0xff, 0xff, 0xff, 0x00]
    ensures EncodeS64(I64_MIN) == [0x80, 0x80, 0x80, 0x80, 0x80, 0x80, 0x80, 0x80, 0x80, 0x7f]
  {
    assert Pow128(9) == 0x8000_0000_0000_0000;
    EncodeS64AllOnes(9);
    EncodeS64PowerNeg(9);
  }

  lemma SignedDecodingCases()
    ensures SignedDecoding([]) == Decoded(0, 0, false)
    ensures SignedDecoding([0x80, 0x80, 0x80, 0x80, 0x80, 0x80, 0x80, 0x80, 0x80, 0x80, 0x80, 0xff]) == Decoded(0, 10, true)
  {
    SignedOverflowIff([0x80, 0x80, 0x80, 0x80, 0x80, 0x80, 0x80, 0x80, 0x80, 0x80, 0x80, 0xff]);
  }
}
