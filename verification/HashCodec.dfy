/**
 Hash strings of `src/hash_validator.rs`: canonical SHA-256 hex, the validators that must
 agree on it, and the decoder. Strings are sequences of bytes, ASCII where the code trims and
 lowercases; the encoding is Base 16 (section 8 of RFC 4648) with a lowercase alphabet.
 */
module HashCodec {
  import opened Common

  type Ascii = x: nat | x < 128
  type Byte = x: nat | x < 256

  datatype Fault =
    | WrongLength(expected: nat, actual: nat)
    | InvalidCharacter(position: nat, character: Byte)
    | EmptyHash
    | UnsupportedAlgorithm
    | NotCanonical

  datatype Result<+T> = Ok(value: T) | Err(fault: Fault)

  const SHA256_HEX: nat := 64
  const SHA512_HEX: nat := 128

  // ---------- Characters ----------

  predicate IsHex(b: Byte) { 48 <= b <= 57 || 97 <= b <= 102 }

  /** ASCII members of the Unicode White_Space property. */
  predicate IsSpace(b: Ascii) { 9 <= b <= 13 || b == 32 }

  function ToLower(b: Ascii): Ascii { if 65 <= b <= 90 then b + 32 else b }

  function HexNibble(b: Byte): (r: Option<nat>)
    ensures r.Some? <==> IsHex(b)
    ensures r.Some? ==> r.value < 16 && HexDigit(r.value) == b
  {
    if 48 <= b <= 57 then Some(b - 48)
    else if 97 <= b <= 102 then Some(b - 97 + 10)
    else None
  }

  function HexDigit(n: nat): Ascii
    requires n < 16
  {
    if n < 10 then 48 + n else 97 + (n - 10)
  }

  ghost predicate IsAscii(s: seq<Byte>) { forall i :: 0 <= i < |s| ==> s[i] < 128 }

  ghost predicate AllHex(s: seq<Byte>) { forall i :: 0 <= i < |s| ==> IsHex(s[i]) }

  /** Position of the first character that is not lowercase hex. */
  function FirstBad(s: seq<Byte>): (r: Option<nat>)
    ensures r.None? <==> AllHex(s)
    ensures r.Some? ==> r.value < |s| && !IsHex(s[r.value]) && AllHex(s[..r.value])
  {
    if s == [] then None
    else if !IsHex(s[0]) then Some(0)
    else
      match FirstBad(s[1..])
      case None => None
      case Some(p) =>
        assert forall i :: 0 <= i < p ==> s[1..][i] == s[i + 1] && IsHex(s[1..][..p][i]);
        Some(p + 1)
  }

  lemma FirstBadIs(s: seq<Byte>, p: nat)
    requires p < |s| && !IsHex(s[p]) && AllHex(s[..p])
    ensures FirstBad(s) == Some(p)
  {
    var q := FirstBad(s).value;
    assert forall i :: 0 <= i < p ==> s[..p][i] == s[i];
    assert forall i :: 0 <= i < q ==> s[..q][i] == s[i];
  }

  // ---------- Normalisation ----------

  function TrimStart(s: seq<Ascii>): seq<Ascii> {
    if s != [] && IsSpace(s[0]) then TrimStart(s[1..]) else s
  }

  function TrimEnd(s: seq<Ascii>): (r: seq<Ascii>)
    ensures r <= s && forall i :: |r| <= i < |s| ==> IsSpace(s[i])
  {
    if s != [] && IsSpace(s[|s| - 1]) then TrimEnd(s[..|s| - 1]) else s
  }

  function Normalize(s: seq<Ascii>): seq<Ascii> {
    var t := TrimEnd(TrimStart(s));
    seq(|t|, i requires 0 <= i < |t| => ToLower(t[i]))
  }

  // ---------- The validators ----------

  predicate IsCanonicalShape(s: seq<Byte>) {
    |s| == SHA256_HEX && FirstBad(s).None?
  }

  function ConstantTimeResult(s: seq<Byte>, n: nat): Result<()> {
    if |s| == 0 then Err(EmptyHash)
    else if |s| != n then Err(WrongLength(n, |s|))
    else match FirstBad(s)
      case Some(p) => Err(InvalidCharacter(p, s[p]))
      case None => Ok(())
  }

  /** Every byte is folded into the mask; there is no early exit. */
  method ValidateConstantTime(s: seq<Byte>, n: nat) returns (r: Result<()>)
    ensures r == ConstantTimeResult(s, n)
  {
    var mask: bv8 := 0xFF;
    for i := 0 to |s|
      invariant i == 0 ==> mask == 0xFF
      invariant i > 0 ==> mask == if AllHex(s[..i]) then 1 else 0
    {
      ghost var before := AllHex(s[..i]);
      assert AllHex(s[..i + 1]) <==> before && IsHex(s[i]) by {
        assert s[..i + 1] == s[..i] + [s[i]];
      }
      mask := mask & ((if IsHex(s[i]) then 1 else 0) & 0x01);
    }
    assert s[..|s|] == s;
    var badChars := mask == 0;
    if |s| == 0 {
      return Err(EmptyHash);
    }
    if |s| != n {
      return Err(WrongLength(n, |s|));
    }
    if badChars {
      var p := FirstBad(s).value;
      return Err(InvalidCharacter(p, s[p]));
    }
    return Ok(());
  }

  /** The older validator looks at a trimmed, lowercased copy. */
  function LegacyResult(s: seq<Ascii>, n: nat): Result<()> {
    ConstantTimeResult(Normalize(s), n)
  }

  method ValidateWithLength(s: seq<Ascii>, n: nat) returns (r: Result<()>)
    ensures r == LegacyResult(s, n)
  {
    var t := Normalize(s);
    if |t| == 0 { return Err(EmptyHash); }
    if |t| != n { return Err(WrongLength(n, |t|)); }
    var i := 0;
    while i < |t|
      invariant 0 <= i <= |t| && AllHex(t[..i])
    {
      if !IsHex(t[i]) {
        FirstBadIs(t, i);
        return Err(InvalidCharacter(i, t[i]));
      }
      assert t[..i + 1] == t[..i] + [t[i]];
      i := i + 1;
    }
    assert t[..i] == t;
    return Ok(());
  }

  function CanonicalNew(s: seq<Byte>): Result<seq<Byte>> {
    if |s| == 0 then Err(EmptyHash)
    else if !IsCanonicalShape(s) then
      if FirstBad(s).None? then Err(WrongLength(SHA256_HEX, |s|)) else Err(NotCanonical)
    else match ConstantTimeResult(s, SHA256_HEX)
      case Err(f) => Err(f)
      case Ok(_) => Ok(s)
  }

  function ValidateForContract(s: seq<Byte>): Result<seq<Byte>> {
    if |s| == 0 then Err(EmptyHash)
    else if !IsCanonicalShape(s) then
      if |s| == SHA512_HEX then Err(UnsupportedAlgorithm)
      else if |s| == SHA256_HEX then Err(NotCanonical)
      else Err(WrongLength(SHA256_HEX, |s|))
    else match ConstantTimeResult(s, SHA256_HEX)
      case Err(f) => Err(f)
      case Ok(_) => Ok(s)
  }

  // ---------- Encoding and decoding ----------

  function Encode(bytes: seq<Byte>): seq<Ascii> {
    seq(2 * |bytes|, i requires 0 <= i < 2 * |bytes| =>
      HexDigit(if i % 2 == 0 then bytes[i / 2] / 16 else bytes[i / 2] % 16))
  }

  function ByteAt(hi: Byte, lo: Byte): Byte
    requires IsHex(hi) && IsHex(lo)
  {
    HexNibble(hi).value * 16 + HexNibble(lo).value
  }

  function Pairs(s: seq<Byte>): seq<Byte>
    requires |s| % 2 == 0 && FirstBad(s).None?
  {
    seq(|s| / 2, i requires 0 <= i < |s| / 2 => ByteAt(s[2 * i], s[2 * i + 1]))
  }

  lemma TrimKeepsHexStart(s: seq<Ascii>)
    requires s != [] && IsHex(s[0])
    ensures TrimStart(s) == s
  {
  }

  lemma {:induction false} TrimStartLength(s: seq<Ascii>)
    ensures |TrimStart(s)| <= |s|
  {
    if s != [] && IsSpace(s[0]) {
      TrimStartLength(s[1..]);
    }
  }

  /**
   The copy that passes validation and the original that is decoded differ only in case and
   surrounding space; a hex prefix of 64 characters is followed by space, if anything.
   */
  lemma AcceptedCopy(s: seq<Ascii>)
    requires LegacyResult(s, SHA256_HEX).Ok?
    ensures |s| >= SHA256_HEX
    ensures AllHex(s[..SHA256_HEX]) ==> forall i :: SHA256_HEX <= i < |s| ==> !IsHex(s[i])
  {
    TrimStartLength(s);
    var t := TrimEnd(TrimStart(s));
    assert |t| == SHA256_HEX;
    if AllHex(s[..SHA256_HEX]) {
      assert s[..SHA256_HEX][0] == s[0];
      TrimKeepsHexStart(s);
    }
  }

  /** Hex that fills the length is its own normal form. */
  lemma HexIsNormal(s: seq<Ascii>)
    requires AllHex(s)
    ensures Normalize(s) == s
  {
    if s != [] {
      TrimKeepsHexStart(s);
      assert IsHex(s[|s| - 1]);
      assert TrimEnd(s) == s;
    } else {
      assert TrimEnd(TrimStart(s)) == [];
    }
  }

  /** First what the validator of the copy says, then the first bad character of the original. */
  function DecodeResult(s: seq<Ascii>): Result<seq<Byte>> {
    match LegacyResult(s, SHA256_HEX)
    case Err(f) => Err(f)
    case Ok(_) =>
      match FirstBad(s)
      case Some(p) => Err(InvalidCharacter(p, s[p]))
      case None => HexIsNormal(s); Ok(Pairs(s))
  }

  /** One digit, or the fault that names it. */
  method NibbleAt(s: seq<Ascii>, p: nat) returns (r: Result<nat>)
    requires p < |s| && AllHex(s[..p])
    ensures r.Ok? ==> HexNibble(s[p]) == Some(r.value) && AllHex(s[..p + 1])
    ensures r.Err? ==> FirstBad(s) == Some(p) && r.fault == InvalidCharacter(p, s[p])
  {
    var digit := HexNibble(s[p]);
    if digit.None? {
      FirstBadIs(s, p);
      return Err(InvalidCharacter(p, s[p]));
    }
    AllHexGrows(s, p);
    return Ok(digit.value);
  }

  /** Two digits make a byte. */
  method DecodeChunk(s: seq<Ascii>, i: nat) returns (r: Result<Byte>)
    requires LegacyResult(s, SHA256_HEX).Ok? && i <= 32 && 2 * i < |s| && AllHex(s[..2 * i])
    ensures r.Ok? ==>
              && i < 32 && 2 * i + 1 < |s| && AllHex(s[..2 * i + 2])
              && IsHex(s[2 * i]) && IsHex(s[2 * i + 1]) && r.value == ByteAt(s[2 * i], s[2 * i + 1])
    ensures r.Err? ==> FirstBad(s).Some? && r.fault == InvalidCharacter(FirstBad(s).value, s[FirstBad(s).value])
  {
    ChunkInRange(s, i);
    var hi := NibbleAt(s, 2 * i);
    if hi.Err? { return Err(hi.fault); }
    var lo := NibbleAt(s, 2 * i + 1);
    if lo.Err? { return Err(lo.fault); }
    return Ok(hi.value * 16 + lo.value);
  }

  /** Reads the original in chunks of two into a 32-byte buffer; all indexing is in range. */
  method HexToBytes32(s: seq<Ascii>) returns (r: Result<seq<Byte>>)
    ensures r == DecodeResult(s)
  {
    var check := ValidateWithLength(s, SHA256_HEX);
    if check.Err? { return Err(check.fault); }
    var bytes := new Byte[32](_ => 0);
    var i := 0;
    while 2 * i < |s|
      invariant i <= 32 && 2 * i <= |s| && AllHex(s[..2 * i])
      invariant forall k :: 0 <= k < i ==> IsHex(s[2 * k]) && IsHex(s[2 * k + 1]) &&
                                           bytes[k] == ByteAt(s[2 * k], s[2 * k + 1])
      decreases |s| - 2 * i
    {
      var b := DecodeChunk(s, i);
      if b.Err? { return Err(b.fault); }
      bytes[i] := b.value;
      i := i + 1;
    }
    assert s[..2 * i] == s;
    HexIsNormal(s);
    PairsAre(s, bytes[..]);
    return Ok(bytes[..]);
  }

  lemma PairsAre(s: seq<Ascii>, bytes: seq<Byte>)
    requires AllHex(s) && |s| == 2 * |bytes|
    requires forall k :: 0 <= k < |bytes| ==> bytes[k] == ByteAt(s[2 * k], s[2 * k + 1])
    ensures bytes == Pairs(s)
  {
  }

  lemma AllHexGrows(s: seq<Ascii>, n: nat)
    requires n < |s| && AllHex(s[..n]) && IsHex(s[n])
    ensures AllHex(s[..n + 1])
  {
    assert s[..n + 1] == s[..n] + [s[n]];
  }

  /** A chunk that starts with a hex digit has a second byte and a slot in the buffer. */
  lemma ChunkInRange(s: seq<Ascii>, i: nat)
    requires LegacyResult(s, SHA256_HEX).Ok? && i <= 32 && 2 * i < |s| && AllHex(s[..2 * i])
    ensures IsHex(s[2 * i]) ==> i < 32 && 2 * i + 1 < |s|
  {
    AcceptedCopy(s);
    if i == 32 {
      assert s[..2 * i] == s[..SHA256_HEX];
    }
  }

  /** Every byte array survives encoding and decoding; its encoding is canonical. */
  lemma {:induction false} DecodeEncode(bytes: seq<Byte>)
    requires |bytes| == 32
    ensures IsCanonicalShape(Encode(bytes)) && DecodeResult(Encode(bytes)) == Ok(bytes)
  {
    var s := Encode(bytes);
    EncodeIsHex(bytes);
    HexIsNormal(s);
    PairsOfEncode(bytes, s);
  }

  lemma EncodeIsHex(bytes: seq<Byte>)
    ensures AllHex(Encode(bytes))
  {
  }

  lemma PairsOfEncode(bytes: seq<Byte>, s: seq<Ascii>)
    requires s == Encode(bytes) && FirstBad(s).None?
    ensures Pairs(s) == bytes
  {
    forall i | 0 <= i < |bytes| ensures ByteAt(s[2 * i], s[2 * i + 1]) == bytes[i] {
      EncodeAt(bytes, i);
      DigitsRoundTrip(bytes[i]);
    }
  }

  lemma EncodeAt(bytes: seq<Byte>, i: nat)
    requires i < |bytes|
    ensures Encode(bytes)[2 * i] == HexDigit(bytes[i] / 16)
    ensures Encode(bytes)[2 * i + 1] == HexDigit(bytes[i] % 16)
  {
  }

  lemma DigitsRoundTrip(b: Byte)
    ensures ByteAt(HexDigit(b / 16), HexDigit(b % 16)) == b
  {
  }

  /** Every canonical string survives decoding and encoding. */
  lemma {:induction false} EncodeDecode(s: seq<Ascii>)
    requires IsCanonicalShape(s)
    ensures DecodeResult(s).Ok? && |DecodeResult(s).value| == 32 && Encode(DecodeResult(s).value) == s
  {
    HexIsNormal(s);
    var b := Pairs(s);
    forall i | 0 <= i < |s| ensures Encode(b)[i] == s[i] {
      var k := i / 2;
      assert IsHex(s[2 * k]) && IsHex(s[2 * k + 1]);
      assert b[k] / 16 == HexNibble(s[2 * k]).value && b[k] % 16 == HexNibble(s[2 * k + 1]).value;
    }
  }

  /** The entry points accept exactly the canonical strings. */
  lemma {:induction false} ValidatorsAgree(s: seq<Byte>)
    ensures CanonicalNew(s).Ok? <==> IsCanonicalShape(s)
    ensures ValidateForContract(s).Ok? <==> IsCanonicalShape(s)
    ensures ConstantTimeResult(s, SHA256_HEX).Ok? <==> IsCanonicalShape(s)
    ensures IsCanonicalShape(s) ==> CanonicalNew(s) == ValidateForContract(s) == Ok(s)
    ensures IsAscii(s) ==> (DecodeResult(s).Ok? <==> IsCanonicalShape(s))
  {
    if FirstBad(s).None? {
      assert IsAscii(s);
      HexIsNormal(s);
    }
  }

  /**
   The constructor and the contract policy refuse with the same fault exactly when the
   length is 64, or the string is hex of a length other than 128, or it is empty.
   */
  lemma FaultsAgreeIff(s: seq<Byte>)
    requires !IsCanonicalShape(s)
    ensures CanonicalNew(s) == ValidateForContract(s) <==>
              s == [] || |s| == SHA256_HEX || (AllHex(s) && |s| != SHA512_HEX)
  {
  }

  // ---------- Which fault a refused string gets ----------

  /** The first character that is not lowercase hex is `b`, at `p`. */
  ghost predicate FirstWrong(s: seq<Byte>, p: nat, b: Byte) {
    && p < |s| && s[p] == b && !IsHex(b)
    && forall i :: 0 <= i < p ==> IsHex(s[i])
  }

  lemma FirstWrongIs(s: seq<Byte>, p: nat, b: Byte)
    ensures FirstWrong(s, p, b) <==> FirstBad(s) == Some(p) && s[p] == b
  {
    if FirstWrong(s, p, b) {
      FirstBadIs(s, p);
    } else if FirstBad(s) == Some(p) {
      assert forall i :: 0 <= i < p ==> s[..p][i] == s[i];
    }
  }

  /** The constant-time validator: an empty string, then a wrong length, then the first wrong character. */
  lemma {:induction false} FaultIff(s: seq<Byte>, n: nat, e: nat, a: nat, p: nat, b: Byte)
    ensures var r := ConstantTimeResult(s, n);
            && (r == Err(EmptyHash) <==> s == [])
            && (r == Err(WrongLength(e, a)) <==> s != [] && |s| != n && e == n && a == |s|)
            && (r == Err(InvalidCharacter(p, b)) <==> s != [] && |s| == n && FirstWrong(s, p, b))
            && r != Err(UnsupportedAlgorithm) && r != Err(NotCanonical)
  {
    FirstWrongIs(s, p, b);
  }

  /** The older validator reports the same faults of the trimmed, lowercased copy. */
  lemma {:induction false} LegacyFaultIff(s: seq<Ascii>, n: nat, e: nat, a: nat, p: nat, b: Byte)
    ensures var r, t := LegacyResult(s, n), Normalize(s);
            && (r == Err(EmptyHash) <==> t == [])
            && (r == Err(WrongLength(e, a)) <==> t != [] && |t| != n && e == n && a == |t|)
            && (r == Err(InvalidCharacter(p, b)) <==> t != [] && |t| == n && FirstWrong(t, p, b))
            && r != Err(UnsupportedAlgorithm) && r != Err(NotCanonical)
  {
    FaultIff(Normalize(s), n, e, a, p, b);
  }

  /** The constructor: length faults are for hex only, everything else is not canonical. */
  lemma {:induction false} NewFaultIff(s: seq<Byte>, e: nat, a: nat)
    ensures var r := CanonicalNew(s);
            && (r == Err(EmptyHash) <==> s == [])
            && (r == Err(WrongLength(e, a)) <==> s != [] && AllHex(s) && |s| != 64 && e == 64 && a == |s|)
            && (r == Err(NotCanonical) <==> !AllHex(s))
            && (r.Err? ==> r.fault.EmptyHash? || r.fault.WrongLength? || r.fault.NotCanonical?)
  {
  }

  /** The contract policy: the length decides, 128 being the algorithm it does not support. */
  lemma {:induction false} PolicyFaultIff(s: seq<Byte>, e: nat, a: nat)
    ensures var r := ValidateForContract(s);
            && (r == Err(EmptyHash) <==> s == [])
            && (r == Err(UnsupportedAlgorithm) <==> |s| == 128)
            && (r == Err(NotCanonical) <==> |s| == 64 && !AllHex(s))
            && (r == Err(WrongLength(e, a)) <==> s != [] && |s| != 64 && |s| != 128 && e == 64 && a == |s|)
            && (r.Err? ==> !r.fault.InvalidCharacter?)
  {
  }

  /** The decoder: what is wrong with the copy, or else the first wrong character of the original. */
  lemma {:induction false} DecodeFaultIff(s: seq<Ascii>, e: nat, a: nat, p: nat, b: Byte)
    ensures var r, t := DecodeResult(s), Normalize(s);
            && (r == Err(EmptyHash) <==> t == [])
            && (r == Err(WrongLength(e, a)) <==> t != [] && |t| != 64 && e == 64 && a == |t|)
            && (r == Err(InvalidCharacter(p, b)) <==>
                  |t| == 64 && if AllHex(t) then FirstWrong(s, p, b) else FirstWrong(t, p, b))
  {
    LegacyFaultIff(s, 64, e, a, p, b);
    FirstWrongIs(s, p, b);
    FirstWrongIs(Normalize(s), p, b);
  }

  // ---------- The alphabet and what trimming and lowercasing touch ----------

  /** Byte `i` is written as two digits, the high half first. */
  lemma {:induction false} EncodeSpells(bytes: seq<Byte>, i: nat)
    requires i < |bytes|
    ensures |Encode(bytes)| == 2 * |bytes|
    ensures Encode(bytes)[2 * i] == "0123456789abcdef"[bytes[i] / 16] as nat
    ensures Encode(bytes)[2 * i + 1] == "0123456789abcdef"[bytes[i] % 16] as nat
  {
    EncodeAt(bytes, i);
    DigitSpells(bytes[i] / 16);
    DigitSpells(bytes[i] % 16);
  }

  lemma DigitSpells(n: nat)
    requires n < 16
    ensures HexDigit(n) == "0123456789abcdef"[n] as nat
  {
  }

  // ---------- What the older validator forgives ----------

  /** Tab, line feed, vertical tab, form feed, carriage return, space. */
  predicate Blank(b: Ascii) { b in {9, 10, 11, 12, 13, 32} }

  predicate EitherCase(b: Ascii) {
    ('0' as nat <= b <= '9' as nat) || ('a' as nat <= b <= 'f' as nat) || ('A' as nat <= b <= 'F' as nat)
  }

  ghost predicate AllSpace(s: seq<Ascii>) { forall i :: 0 <= i < |s| ==> Blank(s[i]) }

  /** Hex in either case between spaces. */
  ghost predicate Padded(s: seq<Ascii>, a: nat, n: nat) {
    && a + n <= |s| && AllSpace(s[..a]) && AllSpace(s[a + n..])
    && forall i :: a <= i < a + n ==> EitherCase(s[i])
  }

  lemma BlankIsSpace(b: Ascii)
    ensures Blank(b) <==> IsSpace(b)
  {
  }

  /** Exactly the capital letters are lowered, each to its small letter. */
  lemma {:induction false} LettersLower(b: Ascii, i: nat)
    requires i < 26
    ensures ToLower("ABCDEFGHIJKLMNOPQRSTUVWXYZ"[i] as nat) == "abcdefghijklmnopqrstuvwxyz"[i] as nat
    ensures !('A' as nat <= b <= 'Z' as nat) ==> ToLower(b) == b
  {
  }

  lemma EitherCaseLowers(b: Ascii)
    ensures EitherCase(b) <==> IsHex(ToLower(b))
  {
  }

  lemma {:induction false} TrimStartIs(s: seq<Ascii>, a: nat)
    requires a < |s| && AllSpace(s[..a]) && !IsSpace(s[a])
    ensures TrimStart(s) == s[a..]
  {
    if a > 0 {
      assert s[..a][0] == s[0];
      assert s[1..][..a - 1] == s[..a][1..];
      TrimStartIs(s[1..], a - 1);
    }
  }

  lemma {:induction false} TrimEndIs(s: seq<Ascii>, n: nat)
    requires 0 < n <= |s| && AllSpace(s[n..]) && !IsSpace(s[n - 1])
    ensures TrimEnd(s) == s[..n]
  {
    if n < |s| {
      var m := |s| - 1;
      assert s[n..][m - n] == s[m];
      assert forall i :: 0 <= i < m - n ==> s[..m][n..][i] == s[n..][i];
      TrimEndIs(s[..m], n);
      assert s[..m][..n] == s[..n];
    }
  }

  lemma {:induction false} TrimStartCuts(s: seq<Ascii>) returns (a: nat)
    ensures a <= |s| && AllSpace(s[..a]) && TrimStart(s) == s[a..]
  {
    a := 0;
    if s != [] && IsSpace(s[0]) {
      var b := TrimStartCuts(s[1..]);
      a := b + 1;
      assert forall i :: 0 < i < a ==> s[..a][i] == s[1..][..b][i - 1];
      assert s[1..][b..] == s[a..];
    }
  }

  lemma PaddedNormal(s: seq<Ascii>, a: nat, n: nat)
    requires n > 0 && Padded(s, a, n)
    ensures |Normalize(s)| == n && AllHex(Normalize(s))
  {
    assert !IsSpace(s[a]) && !IsSpace(s[a + n - 1]);
    TrimStartIs(s, a);
    assert s[a..][n..] == s[a + n..];
    TrimEndIs(s[a..], n);
  }

  lemma NormalPadded(s: seq<Ascii>) returns (a: nat)
    requires AllHex(Normalize(s))
    ensures Padded(s, a, |Normalize(s)|)
  {
    a := TrimStartCuts(s);
    var t, n := TrimStart(s), |Normalize(s)|;
    assert forall i :: 0 <= i < n ==> t[i] == s[a + i] && Normalize(s)[i] == ToLower(t[i]);
    assert s[a + n..] == t[n..];
    forall i | a <= i < a + n ensures IsHex(ToLower(s[i])) {
      assert s[i] == t[i - a];
      assert IsHex(Normalize(s)[i - a]);
    }
  }

  /** The older validator accepts exactly hex of the right length in either case between spaces. */
  lemma {:induction false} LegacyAcceptsIff(s: seq<Ascii>, n: nat)
    ensures LegacyResult(s, n).Ok? <==> n > 0 && exists a: nat :: Padded(s, a, n)
  {
    if LegacyResult(s, n).Ok? {
      var a := NormalPadded(s);
      assert Padded(s, a, n);
    }
    if a: nat :| n > 0 && Padded(s, a, n) {
      PaddedNormal(s, a, n);
    }
  }

  /** It differs from the other validators exactly on strings whose normal form is canonical and another. */
  lemma {:induction false} LegacyDiffersIff(s: seq<Ascii>)
    ensures LegacyResult(s, SHA256_HEX).Ok? != IsCanonicalShape(s) <==>
              IsCanonicalShape(Normalize(s)) && s != Normalize(s)
    ensures LegacyResult(s, SHA256_HEX).Ok? && !IsCanonicalShape(s) ==>
              FirstBad(s).Some? && DecodeResult(s) == Err(InvalidCharacter(FirstBad(s).value, s[FirstBad(s).value]))
  {
    if FirstBad(s).None? {
      HexIsNormal(s);
    }
  }
}
