/// Hexadecimal text and bytes. Text is a string of bytes too, since decoding takes any.
module Hex {
  import opened Common

  /// A hexadecimal digit's worth of a byte.
  type Nibble = b: nat | b < 16

  datatype HexError = InvalidCharacter(character: Byte) | InvalidStringLength(length: nat)

  datatype Result = Ok(bytes: Bytes) | Err(error: HexError)

  const ZERO: Byte := 48
  const NINE: Byte := 57
  const UPPER_A: Byte := 65
  const UPPER_F: Byte := 70
  const UPPER_X: Byte := 88
  const UPPER_Z: Byte := 90
  const LOWER_A: Byte := 97
  const LOWER_F: Byte := 102
  const LOWER_X: Byte := 120

  function HexValue(c: Byte): Option<Nibble> {
    if UPPER_A <= c <= UPPER_F then Some(c - UPPER_A + 10)
    else if LOWER_A <= c <= LOWER_F then Some(c - LOWER_A + 10)
    else if ZERO <= c <= NINE then Some(c - ZERO)
    else None
  }

  /// The high digit moved up by four bits, and the low one in the bits that leaves free.
  function Combined(msd: Nibble, lsd: Nibble): Byte { 16 * msd + lsd }

  function High(b: Byte): Nibble { b / 16 }

  function Low(b: Byte): Nibble { b % 16 }

  function ToChar(nibble: Nibble): Byte {
    if nibble <= 9 then ZERO + nibble else nibble + LOWER_A - 10
  }

  predicate HasPrefix(hex: Bytes) {
    |hex| > 2 && hex[0] == ZERO && (hex[1] == LOWER_X || hex[1] == UPPER_X)
  }

  function Stripped(hex: Bytes): Bytes {
    if HasPrefix(hex) then hex[2..] else hex
  }

  /// Where the first byte that is no digit is; the length if all are digits.
  function FirstInvalid(s: Bytes): (i: nat)
    ensures i <= |s|
    ensures i < |s| ==> HexValue(s[i]).None?
    ensures forall j :: 0 <= j < i ==> HexValue(s[j]).Some?
  {
    if s == [] || HexValue(s[0]).None? then 0 else 1 + FirstInvalid(s[1..])
  }

  predicate AllDigits(s: Bytes) {
    forall i :: 0 <= i < |s| ==> HexValue(s[i]).Some?
  }

  function Paired(s: Bytes): Bytes
    requires |s| % 2 == 0 && AllDigits(s)
  {
    if s == [] then []
    else
      var n := |s| - 2;
      Paired(s[..n]) + [Combined(HexValue(s[n]).value, HexValue(s[n + 1]).value)]
  }

  function Decoded(hex: Bytes): Result {
    if hex == [] || |hex| % 2 != 0 then Err(InvalidStringLength(|hex|))
    else
      var s := Stripped(hex);
      var i := FirstInvalid(s);
      if i < |s| then Err(InvalidCharacter(s[i])) else Ok(Paired(s))
  }

  function Encoded(bytes: Bytes): (r: Bytes)
    ensures |r| == 2 * |bytes|
  {
    if bytes == [] then []
    else
      var n := |bytes| - 1;
      Encoded(bytes[..n]) + [ToChar(High(bytes[n])), ToChar(Low(bytes[n]))]
  }

  lemma NothingPaired()
    ensures AllDigits([]) && Paired([]) == []
  {
  }

  lemma OneMoreDigit(s: Bytes, i: nat)
    requires i < |s| && AllDigits(s[..i]) && HexValue(s[i]).Some?
    ensures AllDigits(s[..i + 1])
  {
    assert forall j :: 0 <= j < i ==> s[..i + 1][j] == s[..i][j];
  }

  lemma PairedNext(s: Bytes, i: nat)
    requires i % 2 == 0 && i + 1 < |s| && AllDigits(s[..i]) && HexValue(s[i]).Some? && HexValue(s[i + 1]).Some?
    ensures AllDigits(s[..i + 2])
    ensures Paired(s[..i + 2]) == Paired(s[..i]) + [Combined(HexValue(s[i]).value, HexValue(s[i + 1]).value)]
  {
    hide HexValue;
    assert s[..i + 2][..i] == s[..i];
    assert forall j :: 0 <= j < i ==> s[..i + 2][j] == s[..i][j];
  }

  /// Decodes pair by pair and gives up at the first byte that is no digit.
  method HexDecode(text: Bytes) returns (r: Result)
    ensures r == Decoded(text)
  {
    hide HexValue, Paired, AllDigits;
    var hex, length := text, |text|;
    if length == 0 || length % 2 != 0 {
      return Err(InvalidStringLength(length));
    }
    if length > 2 && hex[0] == ZERO && (hex[1] == LOWER_X || hex[1] == UPPER_X) {
      length := length - 2;
      hex := hex[2..];
    }
    var bytes: Bytes := [];
    var i := 0;
    NothingPaired();
    while i < length
      invariant i <= length && i % 2 == 0
      invariant AllDigits(hex[..i]) && bytes == Paired(hex[..i])
    {
      var msd := HexValue(hex[i]);
      if msd.None? {
        FirstInvalidIs(hex, i);
        return Err(InvalidCharacter(hex[i]));
      }
      var lsd := HexValue(hex[i + 1]);
      if lsd.None? {
        OneMoreDigit(hex, i);
        FirstInvalidIs(hex, i + 1);
        return Err(InvalidCharacter(hex[i + 1]));
      }
      bytes := bytes + [Combined(msd.value, lsd.value)];
      PairedNext(hex, i);
      i := i + 2;
    }
    FirstInvalidIs(hex, length);
    assert hex[..length] == hex;
    return Ok(bytes);
  }

  method ToLowerHex(bytes: Bytes) returns (hex: Bytes)
    ensures hex == Encoded(bytes)
  {
    hex := [];
    for i := 0 to |bytes|
      invariant hex == Encoded(bytes[..i])
    {
      hex := hex + [ToChar(High(bytes[i]))];
      hex := hex + [ToChar(Low(bytes[i]))];
      assert bytes[..i + 1][..i] == bytes[..i];
    }
    assert bytes[..|bytes|] == bytes;
  }

  lemma FirstInvalidIs(s: Bytes, i: nat)
    requires i <= |s| && AllDigits(s[..i])
    requires i < |s| ==> HexValue(s[i]).None?
    ensures FirstInvalid(s) == i
  {
    assert forall j :: 0 <= j < i ==> s[..i][j] == s[j];
  }

  // ---------------------------------------------------------------------------------------------
  // Round trips
  // ---------------------------------------------------------------------------------------------

  lemma NibbleRoundTrip(n: Nibble)
    ensures HexValue(ToChar(n)) == Some(n) && ToChar(n) != LOWER_X && ToChar(n) != UPPER_X
  {
  }

  lemma ByteRoundTrip(b: Byte)
    ensures Combined(High(b), Low(b)) == b
  {
  }

  lemma PairRoundTrip(m: Nibble, l: Nibble)
    ensures High(Combined(m, l)) == m && Low(Combined(m, l)) == l
  {
  }

  lemma {:induction false} EncodedPairs(bytes: Bytes)
    ensures AllDigits(Encoded(bytes)) && Paired(Encoded(bytes)) == bytes
  {
    if bytes != [] {
      var n, s := |bytes| - 1, Encoded(bytes);
      EncodedPairs(bytes[..n]);
      ByteRoundTrip(bytes[n]);
      NibbleRoundTrip(High(bytes[n]));
      NibbleRoundTrip(Low(bytes[n]));
      hide ToChar, HexValue, High, Low, Combined;
      assert s[..2 * n] == Encoded(bytes[..n]);
      assert forall i :: 0 <= i < 2 * n ==> s[i] == Encoded(bytes[..n])[i];
      assert bytes == bytes[..n] + [bytes[n]];
    }
  }

  lemma DigitsHaveNoPrefix(s: Bytes)
    requires AllDigits(s)
    ensures !HasPrefix(s) && FirstInvalid(s) == |s|
  {
    assert |s| > 2 ==> HexValue(s[1]).Some?;
  }

  lemma DigitsAreDecoded(hex: Bytes)
    requires |hex| > 0 && |hex| % 2 == 0 && AllDigits(Stripped(hex))
    ensures Decoded(hex) == Ok(Paired(Stripped(hex)))
  {
    DigitsHaveNoPrefix(Stripped(hex));
  }

  lemma PrefixIsStripped(prefix: Bytes, s: Bytes)
    requires s != [] && !HasPrefix(s) && (prefix == [] || prefix == [ZERO, LOWER_X] || prefix == [ZERO, UPPER_X])
    ensures Stripped(prefix + s) == s
  {
    if prefix == [] {
      assert prefix + s == s;
    } else {
      assert (prefix + s)[2..] == s;
    }
  }

  /// What was encoded is decoded, with a prefix or without.
  lemma DecodeUndoesEncode(bytes: Bytes, prefix: Bytes)
    requires bytes != [] && (prefix == [] || prefix == [ZERO, LOWER_X] || prefix == [ZERO, UPPER_X])
    ensures Decoded(prefix + Encoded(bytes)) == Ok(bytes)
  {
    hide AllDigits, Paired, HasPrefix, Stripped, Encoded, Decoded;
    EncodedPairs(bytes);
    DigitsHaveNoPrefix(Encoded(bytes));
    PrefixIsStripped(prefix, Encoded(bytes));
    DigitsAreDecoded(prefix + Encoded(bytes));
  }

  function Lower(c: Byte): Byte { if UPPER_A <= c <= UPPER_Z then c + 32 else c }

  function Lowered(s: Bytes): (r: Bytes)
    ensures |r| == |s| && forall i :: 0 <= i < |s| ==> r[i] == Lower(s[i])
  {
    seq(|s|, i requires 0 <= i < |s| => Lower(s[i]))
  }

  lemma DigitEncodesLower(c: Byte)
    requires HexValue(c).Some?
    ensures ToChar(HexValue(c).value) == Lower(c)
  {
  }

  lemma EncodedAppend(bytes: Bytes, b: Byte)
    ensures Encoded(bytes + [b]) == Encoded(bytes) + [ToChar(High(b)), ToChar(Low(b))]
  {
    hide ToChar, High, Low;
    assert (bytes + [b])[..|bytes|] == bytes;
  }

  lemma PairEncodesLower(h: Byte, l: Byte)
    requires HexValue(h).Some? && HexValue(l).Some?
    ensures var b := Combined(HexValue(h).value, HexValue(l).value);
            ToChar(High(b)) == Lower(h) && ToChar(Low(b)) == Lower(l)
  {
    PairRoundTrip(HexValue(h).value, HexValue(l).value);
    DigitEncodesLower(h);
    DigitEncodesLower(l);
  }

  lemma LoweredAppend(s: Bytes, n: nat)
    requires |s| == n + 2
    ensures Lowered(s) == Lowered(s[..n]) + [Lower(s[n]), Lower(s[n + 1])]
  {
    hide Lower;
  }

  lemma {:induction false} PairsEncoded(s: Bytes)
    requires |s| % 2 == 0 && AllDigits(s)
    ensures Encoded(Paired(s)) == Lowered(s)
  {
    hide ToChar, HexValue, High, Low, Combined, Lower, Lowered, Encoded;
    if s == [] {
      NothingEncoded();
    } else {
      var n := |s| - 2;
      PairsEncoded(s[..n]);
      PairEncodesLower(s[n], s[n + 1]);
      EncodedAppend(Paired(s[..n]), Combined(HexValue(s[n]).value, HexValue(s[n + 1]).value));
      LoweredAppend(s, n);
    }
  }

  lemma NothingEncoded()
    ensures Encoded([]) == [] && Lowered([]) == []
  {
  }

  /// What was decoded is encoded as it was, but for the prefix and the case.
  lemma EncodeUndoesDecode(hex: Bytes)
    requires Decoded(hex).Ok?
    ensures Encoded(Decoded(hex).bytes) == Lowered(Stripped(hex))
  {
    PairsEncoded(Stripped(hex));
  }

  /// Two accepted texts stand for the same bytes exactly if they differ in no more than the prefix
  /// and the case.
  lemma SameBytesExactly(a: Bytes, b: Bytes)
    requires Decoded(a).Ok? && Decoded(b).Ok?
    ensures Decoded(a) == Decoded(b) <==> Lowered(Stripped(a)) == Lowered(Stripped(b))
  {
    EncodeUndoesDecode(a);
    EncodeUndoesDecode(b);
    EncodedPairs(Decoded(a).bytes);
    EncodedPairs(Decoded(b).bytes);
  }

  /// A text is refused for its length, before anything else, or for the first byte after the prefix
  /// that is no digit; and a prefix alone is not taken for one.
  lemma RefusedExactly(hex: Bytes)
    ensures Decoded(hex).Ok? <==>
            |hex| > 0 && |hex| % 2 == 0 && AllDigits(Stripped(hex))
    ensures |hex| == 0 || |hex| % 2 == 1 ==> Decoded(hex) == Err(InvalidStringLength(|hex|))
    ensures forall i :: 0 <= i < |Stripped(hex)| && |hex| % 2 == 0 ==>
              HexValue(Stripped(hex)[i]).None? && AllDigits(Stripped(hex)[..i]) ==>
                Decoded(hex) == Err(InvalidCharacter(Stripped(hex)[i]))
    ensures hex == [ZERO, LOWER_X] || hex == [ZERO, UPPER_X] ==> Decoded(hex) == Err(InvalidCharacter(hex[1]))
  {
    var s := Stripped(hex);
    forall i | 0 <= i < |s| && HexValue(s[i]).None? && AllDigits(s[..i])
      ensures FirstInvalid(s) == i
    {
      FirstInvalidIs(s, i);
    }
    if hex == [ZERO, LOWER_X] || hex == [ZERO, UPPER_X] {
      FirstInvalidIs(hex, 1);
    }
  }

  // ---------------------------------------------------------------------------------------------
  // Which characters stand for what
  // ---------------------------------------------------------------------------------------------

  const LOWER_DIGITS := "0123456789abcdef"
  const UPPER_DIGITS := "0123456789ABCDEF"

  /// A digit is read in either case, nothing else is, and digits are written in lower case.
  lemma DigitsExactly(c: Byte, v: Nibble)
    ensures HexValue(c) == Some(v) <==> c == LOWER_DIGITS[v] as nat || c == UPPER_DIGITS[v] as nat
    ensures ToChar(v) == LOWER_DIGITS[v] as nat
  {
  }

  /// The digits of a byte in the encoded text: the high one, then the low one.
  lemma {:induction false} EncodedAt(bytes: Bytes, i: nat)
    requires i < |bytes|
    ensures Encoded(bytes)[2 * i] == LOWER_DIGITS[bytes[i] / 16] as nat
    ensures Encoded(bytes)[2 * i + 1] == LOWER_DIGITS[bytes[i] % 16] as nat
  {
    var n := |bytes| - 1;
    if i < n {
      EncodedAt(bytes[..n], i);
    } else {
      DigitsExactly(0, High(bytes[n]));
      DigitsExactly(0, Low(bytes[n]));
    }
  }

  predicate IsDigit(c: Byte) {
    || '0' as nat <= c <= '9' as nat
    || 'a' as nat <= c <= 'f' as nat
    || 'A' as nat <= c <= 'F' as nat
  }

  /// How many characters make the prefix.
  function PrefixLength(hex: Bytes): nat {
    if |hex| > 2 && hex[0] == '0' as nat && (hex[1] == 'x' as nat || hex[1] == 'X' as nat) then 2 else 0
  }

  /// Which texts are accepted, by their characters.
  lemma AcceptedExactly(hex: Bytes)
    ensures Decoded(hex).Ok? <==>
              |hex| > 0 && |hex| % 2 == 0 && forall i :: PrefixLength(hex) <= i < |hex| ==> IsDigit(hex[i])
    ensures Stripped(hex) == hex[PrefixLength(hex)..]
  {
    var s, from := Stripped(hex), PrefixLength(hex);
    assert s == hex[from..];
    forall c: Byte ensures HexValue(c).Some? <==> IsDigit(c) {
    }
    RefusedExactly(hex);
    hide HexValue, IsDigit, Decoded, Stripped, PrefixLength;
    assert forall i :: 0 <= i < |s| ==> s[i] == hex[from + i];
    assert forall i :: from <= i < |hex| ==> hex[i] == s[i - from];
  }

  lemma {:induction false} PairedLength(s: Bytes)
    requires |s| % 2 == 0 && AllDigits(s)
    ensures 2 * |Paired(s)| == |s|
  {
    if s != [] {
      PairedLength(s[..|s| - 2]);
    }
  }

  lemma {:induction false} PairedAt(s: Bytes, i: nat)
    requires |s| % 2 == 0 && AllDigits(s) && i < |Paired(s)|
    ensures 2 * i + 1 < |s|
    ensures HexValue(s[2 * i]) == Some(Paired(s)[i] / 16) && HexValue(s[2 * i + 1]) == Some(Paired(s)[i] % 16)
  {
    hide HexValue, Combined;
    var n := |s| - 2;
    var init := s[..n];
    PairedLength(s);
    PairedLength(init);
    if i < |Paired(init)| {
      PairedAt(init, i);
      assert init[2 * i] == s[2 * i] && init[2 * i + 1] == s[2 * i + 1];
    } else {
      PairRoundTrip(HexValue(s[n]).value, HexValue(s[n + 1]).value);
    }
  }

  predicate StandsFor(c: Byte, v: Nibble) {
    c == LOWER_DIGITS[v] as nat || c == UPPER_DIGITS[v] as nat
  }

  /// Each byte decoded is what the two digits at its place stand for, the high one first.
  lemma DecodedAt(hex: Bytes, i: nat)
    requires Decoded(hex).Ok? && i < |Decoded(hex).bytes|
    ensures var bytes, at := Decoded(hex).bytes, PrefixLength(hex) + 2 * i;
            && at + 1 < |hex| == PrefixLength(hex) + 2 * |bytes|
            && StandsFor(hex[at], bytes[i] / 16) && StandsFor(hex[at + 1], bytes[i] % 16)
  {
    AcceptedExactly(hex);
    RefusedExactly(hex);
    var s, bytes := Stripped(hex), Decoded(hex).bytes;
    assert bytes == Paired(s);
    hide HexValue, Decoded, Stripped, PrefixLength;
    PairedLength(s);
    PairedAt(s, i);
    DigitsExactly(s[2 * i], bytes[i] / 16);
    DigitsExactly(s[2 * i + 1], bytes[i] % 16);
  }
}
