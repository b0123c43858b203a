/** DER signatures returned by the key-management signer, and low-S normalization
    (`server/src/counterparty-service.ts`). The partner of the parser is `Encode`, the
    Dss-Sig-Value of section 2.2.3 of RFC 3279 with integers as in section 8.3 of X.690. */
module DerSignature {
  import opened Wrappers
  import opened Octets

  const SECP256K1_N: nat := 0xFFFFFFFFFFFFFFFFFFFFFFFFFFFFFFFEBAAEDCE6AF48A03BBFD25E8CD0364141
  const SECP256K1_HALF_N: nat := SECP256K1_N / 2
  const TWO_TO_256: nat := 0x1_0000000000000000_0000000000000000_0000000000000000_0000000000000000

  // ---------- Big-endian numbers ----------

  function Pow256(k: nat): (p: nat)
    ensures p >= 1
  {
    if k == 0 then 1 else 256 * Pow256(k - 1)
  }

  /** The number whose big-endian octets are `b`. */
  function Value(b: Bytes): nat {
    if b == [] then 0 else 256 * Value(b[..|b| - 1]) + b[|b| - 1] as nat
  }

  /** `k` big-endian octets of `v`, the higher ones dropped. */
  function BigEndian(v: nat, k: nat): (b: Bytes)
    ensures |b| == k
  {
    if k == 0 then [] else BigEndian(v / 256, k - 1) + [(v % 256) as byte]
  }

  lemma {:induction false} Pow256IsMonotone(j: nat, k: nat)
    requires j <= k
    ensures Pow256(j) <= Pow256(k)
    decreases k
  {
    if j < k {
      Pow256IsMonotone(j, k - 1);
    }
  }

  lemma {:induction false} ValueOfBigEndian(v: nat, k: nat)
    requires v < Pow256(k)
    ensures Value(BigEndian(v, k)) == v
  {
    if k > 0 {
      ValueOfBigEndian(v / 256, k - 1);
      var b := BigEndian(v, k);
      assert b[..|b| - 1] == BigEndian(v / 256, k - 1);
    }
  }

  lemma {:induction false} BigEndianOfValue(b: Bytes)
    ensures Value(b) < Pow256(|b|)
    ensures BigEndian(Value(b), |b|) == b
  {
    if b != [] {
      BigEndianOfValue(b[..|b| - 1]);
      assert b == b[..|b| - 1] + [b[|b| - 1]];
    }
  }

  lemma {:induction false} ZerosInFront(n: nat, b: Bytes)
    ensures Value(seq(n, _ => 0) + b) == Value(b)
    decreases n + |b|
  {
    var z: Bytes := seq(n, _ => 0);
    if b != [] {
      ZerosInFront(n, b[..|b| - 1]);
      assert (z + b)[..n + |b| - 1] == z + b[..|b| - 1];
    } else if n > 0 {
      ZerosInFront(n - 1, []);
      var y: Bytes := seq(n - 1, _ => 0);
      assert (z + b)[..n - 1] == y + [];
    }
  }

  lemma Pow256Of32()
    ensures Pow256(32) == TWO_TO_256
  {
    assert Pow256(4) == 0x1_00000000;
    Pow256Adds(4, 4);
    Pow256Adds(8, 8);
    Pow256Adds(16, 16);
  }

  lemma {:induction false} Pow256Adds(j: nat, k: nat)
    ensures Pow256(j + k) == Pow256(j) * Pow256(k)
  {
    if j > 0 {
      Pow256Adds(j - 1, k);
    }
  }

  // ---------- The parser ----------

  /** Octet at `offset`; reading past the end yields nothing, as an out-of-range index does in the source. */
  function At(bytes: Bytes, offset: nat): Option<byte> {
    if offset < |bytes| then Some(bytes[offset]) else None
  }

  /** `bytes.subarray(from, to)`: both ends are cut down to the length. */
  function Subarray(bytes: Bytes, from: nat, to: nat): Bytes {
    var hi := if to <= |bytes| then to else |bytes|;
    if from <= hi then bytes[from..hi] else []
  }

  function StripZeros(b: Bytes): (r: Bytes)
    ensures |r| <= |b| && (r == [] || r[0] != 0)
  {
    if b == [] || b[0] != 0 then b else StripZeros(b[1..])
  }

  lemma {:induction false} StripZerosKeepsValue(b: Bytes)
    ensures b == seq(|b| - |StripZeros(b)|, _ => 0) + StripZeros(b)
    ensures Value(StripZeros(b)) == Value(b)
  {
    var r := StripZeros(b);
    if b != [] && b[0] == 0 {
      StripZerosKeepsValue(b[1..]);
      assert b == seq(|b| - |r|, _ => 0) + r;
      ZerosInFront(|b| - |r|, r);
    }
  }

  method NormalizeDerInt(value: Bytes) returns (out: Result<Bytes, string>)
    ensures out == NormalizedInt(value)
  {
    var bytes := value;
    while |bytes| > 0 && bytes[0] == 0
      invariant StripZeros(bytes) == StripZeros(value)
      decreases |bytes|
    {
      bytes := bytes[1..];
    }
    if |bytes| > 32 {
      return Err("invalid KMS signature component length");
    }
    if |bytes| == 32 {
      assert LeftPad(bytes, 32) == bytes;
      return Ok(bytes);
    }
    return Ok(LeftPad(bytes, 32));
  }

  function LeftPad(b: Bytes, width: nat): Bytes
    requires |b| <= width
  {
    seq(width - |b|, _ => 0) + b
  }

  function NormalizedInt(value: Bytes): Result<Bytes, string> {
    var bytes := StripZeros(value);
    if |bytes| > 32 then Err("invalid KMS signature component length")
    else Ok(LeftPad(bytes, 32))
  }

  /** Normalization succeeds exactly on the integers below 2^256 and keeps their value. */
  lemma NormalizedIntMeaning(value: Bytes)
    ensures NormalizedInt(value).Ok? <==> Value(value) < Pow256(32)
    ensures NormalizedInt(value).Ok? ==> NormalizedInt(value).value == BigEndian(Value(value), 32)
  {
    StrippedFits(value, 32);
  }

  /** What is left without leading zeros fits into `width` octets exactly when the value does. */
  lemma StrippedFits(value: Bytes, width: nat)
    ensures |StripZeros(value)| <= width <==> Value(value) < Pow256(width)
    ensures |StripZeros(value)| <= width ==> LeftPad(StripZeros(value), width) == BigEndian(Value(value), width)
  {
    var bytes := StripZeros(value);
    StripZerosKeepsValue(value);
    if |bytes| > width {
      LeadingOctetBound(bytes);
      Pow256IsMonotone(width, |bytes| - 1);
    } else {
      PaddingKeepsValue(bytes, width);
    }
  }

  lemma PaddingKeepsValue(b: Bytes, width: nat)
    requires |b| <= width
    ensures Value(b) < Pow256(width) && LeftPad(b, width) == BigEndian(Value(b), width)
  {
    ZerosInFront(width - |b|, b);
    BigEndianOfValue(LeftPad(b, width));
  }

  lemma {:induction false} LeadingOctetBound(b: Bytes)
    requires b != [] && b[0] != 0
    ensures Pow256(|b| - 1) <= Value(b)
  {
    if |b| == 1 {
      assert b[..0] == [];
    } else {
      LeadingOctetBound(b[..|b| - 1]);
    }
  }

  datatype Components = Components(r: Bytes, s: Bytes)

  method ParseDerSignature(bytes: Bytes) returns (out: Result<Components, string>)
    ensures out == Parsed(bytes)
  {
    var offset := 0;
    if At(bytes, offset) != Some(0x30) {
      return Err("invalid DER signature from KMS");
    }
    offset := offset + 1;

    var totalLength := At(bytes, offset);
    offset := offset + 1;
    if totalLength == None || totalLength.value as int != |bytes| - offset {
      return Err("invalid DER signature length from KMS");
    }

    if At(bytes, offset) != Some(0x02) {
      return Err("invalid DER signature (missing r)");
    }
    offset := offset + 1;

    var rLength := At(bytes, offset);
    offset := offset + 1;
    if rLength == None {
      return Err("invalid DER signature (missing s)");
    }
    var rBytes := Subarray(bytes, offset, offset + rLength.value as nat);
    offset := offset + rLength.value as nat;

    if At(bytes, offset) != Some(0x02) {
      return Err("invalid DER signature (missing s)");
    }
    offset := offset + 1;

    // A missing length reads as an empty integer.
    var sLength := At(bytes, offset).GetOr(0);
    offset := offset + 1;
    var sBytes := Subarray(bytes, offset, offset + sLength as nat);

    assert Split(bytes) == Ok(Components(rBytes, sBytes));
    var r := NormalizeDerInt(rBytes);
    if r.Err? {
      return Err(r.error);
    }
    var s := NormalizeDerInt(sBytes);
    if s.Err? {
      return Err(s.error);
    }
    return Ok(Components(r.value, s.value));
  }

  /** Where the parser finds the contents octets of the two integers. */
  function Split(bytes: Bytes): Result<Components, string> {
    if At(bytes, 0) != Some(0x30) then Err("invalid DER signature from KMS")
    else if |bytes| == 1 || bytes[1] as int != |bytes| - 2 then Err("invalid DER signature length from KMS")
    else if At(bytes, 2) != Some(0x02) then Err("invalid DER signature (missing r)")
    else if |bytes| == 3 then Err("invalid DER signature (missing s)")
    else
      var rEnd := 4 + bytes[3] as nat;
      if At(bytes, rEnd) != Some(0x02) then Err("invalid DER signature (missing s)")
      else
        var sLength := At(bytes, rEnd + 1).GetOr(0);
        Ok(Components(Subarray(bytes, 4, rEnd), Subarray(bytes, rEnd + 2, rEnd + 2 + sLength as nat)))
  }

  function Parsed(bytes: Bytes): Result<Components, string> {
    var contents := Split(bytes);
    if contents.Err? then contents
    else
      var r, s := NormalizedInt(contents.value.r), NormalizedInt(contents.value.s);
      if r.Err? then Err(r.error) else if s.Err? then Err(s.error) else Ok(Components(r.value, s.value))
  }

  // ---------- The encoder ----------

  /** The least `k` such that `v < 256^k`: octets of an unsigned number. */
  function Width(v: nat): nat {
    if v == 0 then 0 else 1 + Width(v / 256)
  }

  lemma {:induction false} WidthIsLeast(v: nat, k: nat)
    requires v < Pow256(k)
    ensures Width(v) <= k && v < Pow256(Width(v))
  {
    if v > 0 {
      WidthIsLeast(v / 256, k - 1);
    }
  }

  /** Contents octets of a non-negative INTEGER: the fewest octets whose first bit is a zero. */
  function IntegerContents(v: nat): Bytes {
    var magnitude := BigEndian(v, Width(v));
    if magnitude == [] || magnitude[0] >= 0x80 then [0] + magnitude else magnitude
  }

  lemma {:induction false} NoZeroInFront(v: nat)
    requires v > 0
    ensures Width(v) > 0 && BigEndian(v, Width(v))[0] != 0
  {
    if v >= 256 {
      NoZeroInFront(v / 256);
    }
  }

  /** They are the contents that section 8.3 of X.690 asks for: not empty, not negative, and the first nine bits
      are not all zero. */
  lemma ContentsAreMinimal(v: nat)
    ensures var c := IntegerContents(v);
            c != [] && c[0] < 0x80 && (|c| > 1 && c[0] == 0 ==> c[1] >= 0x80)
  {
    if v > 0 {
      NoZeroInFront(v);
    }
  }

  /** SEQUENCE of two INTEGERs, all lengths in the short form. */
  function Frame(r: Bytes, s: Bytes): Bytes
    requires |r| + |s| <= 120
  {
    [0x30, (4 + |r| + |s|) as byte, 0x02, |r| as byte] + r + [0x02, |s| as byte] + s
  }

  function Encode(r: nat, s: nat): Bytes
    requires r < TWO_TO_256 && s < TWO_TO_256
  {
    ContentsHaveTheValue(r);
    ContentsHaveTheValue(s);
    Frame(IntegerContents(r), IntegerContents(s))
  }

  lemma SplitInvertsFrame(r: Bytes, s: Bytes)
    requires |r| + |s| <= 120
    ensures Split(Frame(r, s)) == Ok(Components(r, s))
  {
    var bytes := Frame(r, s);
    var rEnd := 4 + |r|;
    assert bytes[4..rEnd] == r && bytes[rEnd] == 0x02 && bytes[rEnd + 1] == |s| as byte;
    assert bytes[rEnd + 2..rEnd + 2 + |s|] == s;
  }

  /** The contents of the second integer in what follows its tag: a missing length is zero, and a length
      beyond the end takes what there is. */
  function SecondContents(rest: Bytes): Bytes {
    if rest == [] then [] else Subarray(rest, 1, 1 + rest[0] as nat)
  }

  /** `bytes` is a frame whose first integer is `r`; its second one is whatever `rest` holds. */
  predicate LooseFrame(bytes: Bytes, r: Bytes, rest: Bytes) {
    |r| < 256 && 5 + |r| + |rest| < 258
    && bytes == [0x30, (3 + |r| + |rest|) as byte, 0x02, |r| as byte] + r + [0x02] + rest
  }

  /** Exactly the inputs that the parser takes apart: the lengths of the sequence and of the first integer
      must be right, but the second integer may be cut short or followed by anything. */
  lemma SplitAcceptsIff(bytes: Bytes, r: Bytes, s: Bytes)
    ensures Split(bytes) == Ok(Components(r, s))
       <==> exists rest :: LooseFrame(bytes, r, rest) && s == SecondContents(rest)
  {
    if Split(bytes) == Ok(Components(r, s)) {
      var rest := SplitTakesLooseFrames(bytes, r, s);
    }
    if rest :| LooseFrame(bytes, r, rest) && s == SecondContents(rest) {
      LooseFrameSplits(bytes, r, rest);
    }
  }

  lemma SplitTakesLooseFrames(bytes: Bytes, r: Bytes, s: Bytes) returns (rest: Bytes)
    requires Split(bytes) == Ok(Components(r, s))
    ensures LooseFrame(bytes, r, rest) && s == SecondContents(rest)
  {
    var rEnd := 4 + bytes[3] as nat;
    rest := bytes[rEnd + 1..];
    SecondContentsAt(bytes, rEnd);
    HeadThenRest(bytes, rEnd);
  }

  lemma HeadThenRest(bytes: Bytes, rEnd: nat)
    requires 4 <= rEnd < |bytes|
    ensures bytes == [bytes[0], bytes[1], bytes[2], bytes[3]] + bytes[4..rEnd] + [bytes[rEnd]] + bytes[rEnd + 1..]
  {
    assert bytes == bytes[..4] + bytes[4..rEnd] + bytes[rEnd..rEnd + 1] + bytes[rEnd + 1..];
  }

  lemma LooseFrameSplits(bytes: Bytes, r: Bytes, rest: Bytes)
    requires LooseFrame(bytes, r, rest)
    ensures Split(bytes) == Ok(Components(r, SecondContents(rest)))
  {
    var rEnd := 4 + |r|;
    var head: Bytes := [0x30, (3 + |r| + |rest|) as byte, 0x02, |r| as byte];
    TakeApart(head, r, [0x02], rest);
    SecondContentsAt(bytes, rEnd);
  }

  lemma TakeApart(a: Bytes, b: Bytes, c: Bytes, d: Bytes)
    requires |c| == 1
    ensures var all := a + b + c + d;
            && |all| == |a| + |b| + 1 + |d| && (forall i :: 0 <= i < |a| ==> all[i] == a[i])
            && all[|a|..|a| + |b|] == b && all[|a| + |b|] == c[0] && all[|a| + |b| + 1..] == d
  {
  }

  lemma SecondContentsAt(bytes: Bytes, rEnd: nat)
    requires rEnd < |bytes|
    ensures Subarray(bytes, rEnd + 2, rEnd + 2 + At(bytes, rEnd + 1).GetOr(0) as nat) ==
            SecondContents(bytes[rEnd + 1..])
  {
  }

  lemma ContentsHaveTheValue(v: nat)
    requires v < TWO_TO_256
    ensures |IntegerContents(v)| <= 33
    ensures Value(IntegerContents(v)) == v
  {
    Pow256Of32();
    WidthIsLeast(v, 32);
    ValueOfBigEndian(v, Width(v));
    var magnitude := BigEndian(v, Width(v));
    ZerosInFront(1, magnitude);
    var zero: Bytes := seq(1, _ => 0);
    assert zero == [0];
  }

  /** Parsing inverts the encoding, for every pair of 256-bit numbers. */
  lemma ParseInvertsEncode(r: nat, s: nat)
    requires r < TWO_TO_256 && s < TWO_TO_256
    ensures Parsed(Encode(r, s)) == Ok(Components(BigEndian(r, 32), BigEndian(s, 32)))
    ensures Value(BigEndian(r, 32)) == r && Value(BigEndian(s, 32)) == s
  {
    Pow256Of32();
    ContentsHaveTheValue(r);
    ContentsHaveTheValue(s);
    SplitInvertsFrame(IntegerContents(r), IntegerContents(s));
    NormalizedIntMeaning(IntegerContents(r));
    NormalizedIntMeaning(IntegerContents(s));
    ValueOfBigEndian(r, 32);
    ValueOfBigEndian(s, 32);
  }

  // ---------- Low S ----------

  function HexDigits(v: nat): nat {
    if v < 16 then 1 else 1 + HexDigits(v / 16)
  }

  function Pow16(k: nat): nat {
    if k == 0 then 1 else 16 * Pow16(k - 1)
  }

  lemma {:induction false} HexDigitsMeaning(v: nat)
    ensures v < Pow16(HexDigits(v)) && (v > 0 ==> Pow16(HexDigits(v) - 1) <= v)
  {
    if v >= 16 {
      HexDigitsMeaning(v / 16);
    }
  }

  /** `ensureLowS`. Above the group order the difference is negative: its text starts with a minus
      sign, and decoding that text keeps only the zero digits padded in front of the sign. */
  function EnsureLowS(s: Bytes): Bytes
    requires |s| == 32
  {
    if Value(s) <= SECP256K1_HALF_N then s
    else if Value(s) <= SECP256K1_N then BigEndian(SECP256K1_N - Value(s), 32)
    else
      var digits := HexDigits(Value(s) - SECP256K1_N);
      if digits < 64 then seq((63 - digits) / 2, _ => 0) else []
  }

  lemma {:induction false} DigitsBound(v: nat, k: nat)
    requires k > 0 && v < Pow256(k)
    ensures HexDigits(v) <= 2 * k
    decreases k
  {
    if v >= 256 {
      DigitsBound(v / 256, k - 1);
      assert v / 16 / 16 == v / 256;
    }
  }

  lemma OrderIsNearTwoTo256()
    ensures Pow256(32) - SECP256K1_N < Pow256(17)
  {
    Pow256Of32();
    Pow256Adds(16, 1);
    assert Pow256(4) == 0x1_00000000;
    Pow256Adds(4, 4);
    Pow256Adds(8, 8);
    assert Pow256(1) == 256;
  }

  lemma DigitsAboveTheOrder(s: Bytes)
    requires |s| == 32 && Value(s) > SECP256K1_N
    ensures 1 <= HexDigits(Value(s) - SECP256K1_N) <= 34
  {
    BigEndianOfValue(s);
    OrderIsNearTwoTo256();
    DigitsBound(Value(s) - SECP256K1_N, 17);
  }

  lemma AboveTheOrder(s: Bytes)
    requires |s| == 32 && Value(s) > SECP256K1_N
    ensures 14 <= |EnsureLowS(s)| <= 31 && forall o :: o in EnsureLowS(s) ==> o == 0
  {
    DigitsAboveTheOrder(s);
  }

  /** The result is 32 octets exactly when `s` does not exceed the group order, and then it stands for
      `s` or `N - s`, is low, and is left alone by a second application. */
  lemma LowSMeaning(s: Bytes)
    requires |s| == 32
    ensures |EnsureLowS(s)| == 32 <==> Value(s) <= SECP256K1_N
    ensures Value(s) <= SECP256K1_N ==>
      && Value(EnsureLowS(s)) in {Value(s), SECP256K1_N - Value(s)}
      && Value(EnsureLowS(s)) <= SECP256K1_HALF_N
      && EnsureLowS(EnsureLowS(s)) == EnsureLowS(s)
    ensures 1 <= Value(s) < SECP256K1_N ==> 1 <= Value(EnsureLowS(s))
    ensures Value(s) > SECP256K1_N ==> 14 <= |EnsureLowS(s)| <= 31 && forall o :: o in EnsureLowS(s) ==> o == 0
  {
    if Value(s) > SECP256K1_N {
      AboveTheOrder(s);
    }
    if SECP256K1_HALF_N < Value(s) <= SECP256K1_N {
      Pow256Of32();
      ValueOfBigEndian(SECP256K1_N - Value(s), 32);
    }
  }

  /** The two signatures `s` and `N - s` normalize to the same octets. */
  lemma LowSIsCanonical(s: Bytes, t: Bytes)
    requires |s| == 32 && |t| == 32
    requires 1 <= Value(s) < SECP256K1_N && Value(t) == SECP256K1_N - Value(s)
    ensures EnsureLowS(s) == EnsureLowS(t)
  {
    BigEndianOfValue(s);
    BigEndianOfValue(t);
  }
}
