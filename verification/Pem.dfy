/// Base64 and the PEM wrapping of DER bytes.
module Pem {
  import opened Common
  import opened Text

  type Sextet = v: nat | v < 64

  // ---------------------------------------------------------------------------------------------
  // Base64, as in section 4 of RFC 4648
  // ---------------------------------------------------------------------------------------------

  function Symbol(v: Sextet): char {
    if v < 26 then 'A' + v as char
    else if v < 52 then 'a' + (v - 26) as char
    else if v < 62 then '0' + (v - 52) as char
    else if v == 62 then '+'
    else '/'
  }

  function SymbolValue(c: char): Option<Sextet> {
    if 'A' <= c <= 'Z' then Some(c as nat - 'A' as nat)
    else if 'a' <= c <= 'z' then Some(c as nat - 'a' as nat + 26)
    else if '0' <= c <= '9' then Some(c as nat - '0' as nat + 52)
    else if c == '+' then Some(62)
    else if c == '/' then Some(63)
    else None
  }

  function Encoded(b: Bytes): string {
    if |b| == 0 then ""
    else if |b| == 1 then TwicePadded(b[0])
    else if |b| == 2 then OncePadded(b[0], b[1])
    else Quartet(b[0], b[1], b[2]) + Encoded(b[3..])
  }

  function TwicePadded(x: Byte): (q: string)
    ensures |q| == 4 && q[3] == '='
  {
    [Symbol(x / 4), Symbol(x % 4 * 16), '=', '=']
  }

  function OncePadded(x: Byte, y: Byte): (q: string)
    ensures |q| == 4 && q[3] == '='
  {
    [Symbol(x / 4), Symbol(x % 4 * 16 + y / 16), Symbol(y % 16 * 4), '=']
  }

  function Quartet(x: Byte, y: Byte, z: Byte): (q: string)
    ensures |q| == 4
  {
    [Symbol(x / 4), Symbol(x % 4 * 16 + y / 16), Symbol(y % 16 * 4 + z / 64), Symbol(z % 64)]
  }

  const CAPITALS := "ABCDEFGHIJKLMNOPQRSTUVWXYZ"
  const SMALL := "abcdefghijklmnopqrstuvwxyz"
  const OTHERS := "0123456789+/"

  /// The alphabet of table 1 in section 4 of RFC 4648.
  lemma SymbolExactly(v: Sextet)
    ensures Symbol(v) == if v < 26 then CAPITALS[v] else if v < 52 then SMALL[v - 26] else OTHERS[v - 52]
  {
  }

  lemma SymbolsDiffer(v: Sextet, w: Sextet)
    ensures Symbol(v) == Symbol(w) <==> v == w
  {
    SymbolRoundTrip(v);
    SymbolRoundTrip(w);
  }

  /// The four characters of a group stand for the 24 bits of its three bytes, the first for the highest
  /// six.
  lemma GroupExactly(x: Byte, y: Byte, z: Byte, i: Sextet, j: Sextet, k: Sextet, l: Sextet)
    ensures Quartet(x, y, z) == [Symbol(i), Symbol(j), Symbol(k), Symbol(l)] <==>
              x * 65536 + y * 256 + z == i * 262144 + j * 4096 + k * 64 + l
  {
    SymbolsDiffer(x / 4, i);
    SymbolsDiffer(x % 4 * 16 + y / 16, j);
    SymbolsDiffer(y % 16 * 4 + z / 64, k);
    SymbolsDiffer(z % 64, l);
    hide Symbol;
    var q, g := Quartet(x, y, z), [Symbol(i), Symbol(j), Symbol(k), Symbol(l)];
    assert q == g <==> q[0] == g[0] && q[1] == g[1] && q[2] == g[2] && q[3] == g[3];
    hide Quartet;
  }

  /// A last group of two bytes or one has zero bits and padding for the rest.
  lemma LastGroupExactly(x: Byte, y: Byte, i: Sextet, j: Sextet, k: Sextet)
    ensures OncePadded(x, y) == [Symbol(i), Symbol(j), Symbol(k), '='] <==> (x * 256 + y) * 4 == i * 4096 + j * 64 + k
    ensures TwicePadded(x) == [Symbol(i), Symbol(j), '=', '='] <==> x * 16 == i * 64 + j
  {
    SymbolsDiffer(x / 4, i);
    SymbolsDiffer(x % 4 * 16 + y / 16, j);
    SymbolsDiffer(y % 16 * 4, k);
    SymbolsDiffer(x % 4 * 16, j);
    hide Symbol;
    var p, g := OncePadded(x, y), [Symbol(i), Symbol(j), Symbol(k), '='];
    assert p == g <==> p[0] == g[0] && p[1] == g[1] && p[2] == g[2];
    var s, h := TwicePadded(x), [Symbol(i), Symbol(j), '=', '='];
    assert s == h <==> s[0] == h[0] && s[1] == h[1];
    hide OncePadded, TwicePadded;
  }

  /// Where the group of three bytes is in the encoded text.
  lemma {:induction false} EncodedGroup(b: Bytes, k: nat)
    requires 3 * k + 2 < |b|
    ensures 4 * k + 4 <= |Encoded(b)| && Encoded(b)[4 * k..4 * k + 4] == Quartet(b[3 * k], b[3 * k + 1], b[3 * k + 2])
  {
    hide Quartet;
    var q, rest := Quartet(b[0], b[1], b[2]), Encoded(b[3..]);
    if k > 0 {
      EncodedGroup(b[3..], k - 1);
      assert (q + rest)[4 * k..4 * k + 4] == rest[4 * (k - 1)..4 * (k - 1) + 4];
    } else {
      assert (q + rest)[0..4] == q;
    }
  }

  lemma {:induction false} EncodedLength(b: Bytes)
    ensures |Encoded(b)| == (|b| + 2) / 3 * 4
  {
    if |b| > 2 {
      EncodedLength(b[3..]);
    }
  }

  /// Takes what an encoder makes and nothing else: padding and spare bits have to be as they should.
  function Decoded(s: string): Option<Bytes> {
    if s == "" then Some([])
    else if |s| < 4 then None
    else if |s| == 4 && s[3] == '=' then Tail(s)
    else
      var first, rest := Triple(s[..4]), Decoded(s[4..]);
      if first.None? || rest.None? then None else Some(first.value + rest.value)
  }

  function Triple(q: string): Option<Bytes>
    requires |q| == 4
  {
    var i, j, k, l := SymbolValue(q[0]), SymbolValue(q[1]), SymbolValue(q[2]), SymbolValue(q[3]);
    if i.None? || j.None? || k.None? || l.None? then None
    else Some([i.value * 4 + j.value / 16, j.value % 16 * 16 + k.value / 4, k.value % 4 * 64 + l.value])
  }

  function Tail(q: string): Option<Bytes>
    requires |q| == 4
  {
    var i, j, k := SymbolValue(q[0]), SymbolValue(q[1]), SymbolValue(q[2]);
    if i.None? || j.None? then None
    else if q[2] == '=' then
      if j.value % 16 == 0 then Some([i.value * 4 + j.value / 16]) else None
    else if k.None? || k.value % 4 != 0 then None
    else Some([i.value * 4 + j.value / 16, j.value % 16 * 16 + k.value / 4])
  }

  lemma SymbolRoundTrip(v: Sextet)
    ensures SymbolValue(Symbol(v)) == Some(v) && Symbol(v) != '='
  {
  }

  lemma ValueRoundTrip(c: char)
    requires SymbolValue(c).Some?
    ensures Symbol(SymbolValue(c).value) == c && c != '='
  {
  }

  lemma Regrouped(x: Byte, y: Byte, z: Byte)
    ensures x / 4 * 4 + (x % 4 * 16 + y / 16) / 16 == x
    ensures (x % 4 * 16 + y / 16) % 16 * 16 + (y % 16 * 4 + z / 64) / 4 == y
    ensures (y % 16 * 4 + z / 64) % 4 * 64 + z % 64 == z
  {
  }

  lemma TripleRoundTrip(x: Byte, y: Byte, z: Byte)
    ensures Triple(Quartet(x, y, z)) == Some([x, y, z]) && Quartet(x, y, z)[3] != '='
  {
    hide Symbol, SymbolValue;
    SymbolRoundTrip(x / 4);
    SymbolRoundTrip(x % 4 * 16 + y / 16);
    SymbolRoundTrip(y % 16 * 4 + z / 64);
    SymbolRoundTrip(z % 64);
    Regrouped(x, y, z);
  }

  lemma OneByteRoundTrip(x: Byte)
    ensures Tail(TwicePadded(x)) == Some([x])
  {
    hide Symbol, SymbolValue;
    SymbolRoundTrip(x / 4);
    SymbolRoundTrip(x % 4 * 16);
  }

  lemma TwoBytesRoundTrip(x: Byte, y: Byte)
    ensures Tail(OncePadded(x, y)) == Some([x, y])
  {
    hide Symbol, SymbolValue;
    SymbolRoundTrip(x / 4);
    SymbolRoundTrip(x % 4 * 16 + y / 16);
    SymbolRoundTrip(y % 16 * 4);
  }

  lemma TailRoundTrip(b: Bytes)
    requires 1 <= |b| <= 2
    ensures Decoded(Encoded(b)) == Some(b)
  {
    hide TwicePadded, OncePadded, Tail;
    if |b| == 1 {
      OneByteRoundTrip(b[0]);
      assert b == [b[0]];
    } else {
      TwoBytesRoundTrip(b[0], b[1]);
      assert b == [b[0], b[1]];
    }
  }

  lemma {:induction false} DecodeUndoesEncode(b: Bytes)
    ensures Decoded(Encoded(b)) == Some(b)
  {
    if 1 <= |b| <= 2 {
      TailRoundTrip(b);
    } else if |b| > 2 {
      hide Triple, Quartet, Tail;
      DecodeUndoesEncode(b[3..]);
      TripleRoundTrip(b[0], b[1], b[2]);
      var q := Quartet(b[0], b[1], b[2]);
      assert (q + Encoded(b[3..]))[..4] == q && (q + Encoded(b[3..]))[4..] == Encoded(b[3..]);
      assert b == [b[0], b[1], b[2]] + b[3..];
    }
  }

  lemma QuartetRoundTrip(q: string)
    requires |q| == 4 && Triple(q).Some?
    ensures |Triple(q).value| == 3
    ensures var t := Triple(q).value; Quartet(t[0], t[1], t[2]) == q
  {
    hide Symbol, SymbolValue;
    ValueRoundTrip(q[0]);
    ValueRoundTrip(q[1]);
    ValueRoundTrip(q[2]);
    ValueRoundTrip(q[3]);
  }

  lemma TailCanonical(q: string)
    requires |q| == 4 && q[3] == '=' && Tail(q).Some?
    ensures Encoded(Tail(q).value) == q
  {
    hide Symbol, SymbolValue;
    ValueRoundTrip(q[0]);
    ValueRoundTrip(q[1]);
    if q[2] != '=' {
      ValueRoundTrip(q[2]);
    }
  }

  lemma {:induction false} EncodeUndoesDecode(s: string)
    requires Decoded(s).Some?
    ensures Encoded(Decoded(s).value) == s
  {
    if |s| == 4 && s[3] == '=' {
      TailCanonical(s);
    } else if |s| >= 4 {
      hide Triple, Quartet, Tail;
      EncodeUndoesDecode(s[4..]);
      QuartetRoundTrip(s[..4]);
      var t, rest := Triple(s[..4]).value, Decoded(s[4..]).value;
      assert (t + rest)[3..] == rest;
      assert s == s[..4] + s[4..];
    }
  }

  /// Base64 text is of letters, digits, '+', '/' and '='.
  predicate IsText(c: char) { SymbolValue(c).Some? || c == '=' }

  lemma {:induction false} EncodedIsText(b: Bytes)
    ensures forall i :: 0 <= i < |Encoded(b)| ==> IsText(Encoded(b)[i])
  {
    forall v: Sextet ensures IsText(Symbol(v)) {
      SymbolRoundTrip(v);
    }
    hide Symbol, SymbolValue, IsText;
    assert IsText('=') by {
      PaddingIsText();
    }
    if |b| > 2 {
      EncodedIsText(b[3..]);
      var q, rest := Quartet(b[0], b[1], b[2]), Encoded(b[3..]);
      assert forall i :: 0 <= i < |q + rest| ==> (q + rest)[i] == if i < 4 then q[i] else rest[i - 4];
    }
  }

  lemma PaddingIsText()
    ensures IsText('=')
  {
  }

  // ---------------------------------------------------------------------------------------------
  // PEM
  // ---------------------------------------------------------------------------------------------

  const LINE := 64

  datatype PemLabel = Certificate | PrivateKey | PublicKey {
    function AsStr(): string {
      match this
      case Certificate => "CERTIFICATE"
      case PrivateKey => "PRIVATE KEY"
      case PublicKey => "PUBLIC KEY"
    }
  }

  function Chunks(s: string): seq<string> {
    if s == "" then []
    else if |s| <= LINE then [s]
    else [s[..LINE]] + Chunks(s[LINE..])
  }

  function Begin(kind: PemLabel): string { "-----BEGIN " + kind.AsStr() + "-----" }

  function End(kind: PemLabel): string { "-----END " + kind.AsStr() + "-----" }

  function DerToPem(der: Bytes, kind: PemLabel): string {
    Begin(kind) + "\n" + Joined(Chunks(Encoded(der)), '\n') + "\n" + End(kind)
  }

  predicate Dashed(line: string) { "-----" <= line }

  function Undashed(lines: seq<string>): string {
    if lines == [] then ""
    else (if Dashed(lines[0]) then "" else lines[0]) + Undashed(lines[1..])
  }

  /// Reads PEM text: drops the dashed lines, puts the others together and decodes them.
  function PemToDer(pem: string): Option<Bytes> {
    Decoded(Undashed(Split(pem, '\n')))
  }

  /// The lines between the dashed ones; one empty line if there is nothing to write.
  function Body(der: Bytes): (lines: seq<string>)
    ensures lines != []
  {
    if der == [] then [""] else Chunks(Encoded(der))
  }

  predicate IsLine(line: string) {
    forall i :: 0 <= i < |line| ==> IsText(line[i])
  }

  lemma LineIsPlain(line: string)
    requires IsLine(line)
    ensures '\n' !in line && !Dashed(line)
  {
    assert line != "" ==> IsText(line[0]);
  }

  lemma {:induction false} ChunksAreLines(s: string)
    requires IsLine(s)
    ensures forall i :: 0 <= i < |Chunks(s)| ==> IsLine(Chunks(s)[i]) && 0 < |Chunks(s)[i]| <= LINE
    ensures forall i :: 0 <= i < |Chunks(s)| - 1 ==> |Chunks(s)[i]| == LINE
    ensures Undashed(Chunks(s)) == s
  {
    if |s| > LINE {
      var rest := s[LINE..];
      assert forall i :: 0 <= i < |rest| ==> rest[i] == s[i + LINE];
      ChunksAreLines(rest);
      LineIsPlain(s[..LINE]);
      assert s == s[..LINE] + rest;
      assert Chunks(s)[1..] == Chunks(rest);
    } else if s != "" {
      LineIsPlain(s);
      assert Chunks(s)[1..] == [];
    }
  }

  /// Every line of the body is full but the last, which may be shorter, and is empty only if there
  /// is nothing to write; and together the lines are the Base64 text.
  lemma BodyIsWrapped(der: Bytes)
    ensures var lines := Body(der);
            && (forall i :: 0 <= i < |lines| ==> IsLine(lines[i]) && '\n' !in lines[i] && !Dashed(lines[i]))
            && (forall i :: 0 <= i < |lines| - 1 ==> |lines[i]| == 64)
            && |lines[|lines| - 1]| <= 64
            && (|lines[|lines| - 1]| == 0 <==> der == [])
            && Undashed(lines) == Encoded(der)
  {
    EncodedIsText(der);
    ChunksAreLines(Encoded(der));
    hide IsText;
    forall line | IsLine(line) ensures '\n' !in line && !Dashed(line) {
      LineIsPlain(line);
    }
  }

  lemma DashedLines(kind: PemLabel)
    ensures '\n' !in Begin(kind) && '\n' !in End(kind) && Dashed(Begin(kind)) && Dashed(End(kind))
  {
  }

  lemma UndashedEnds(begin: string, lines: seq<string>, end: string)
    requires Dashed(begin) && Dashed(end)
    ensures Undashed([begin] + lines + [end]) == Undashed(lines)
  {
    assert ([begin] + lines + [end])[1..] == lines + [end];
    UndashedLast(lines, end);
  }

  lemma {:induction false} UndashedLast(lines: seq<string>, end: string)
    requires Dashed(end)
    ensures Undashed(lines + [end]) == Undashed(lines)
  {
    if lines == [] {
      assert [end][1..] == [];
    } else {
      assert (lines + [end])[1..] == lines[1..] + [end];
      UndashedLast(lines[1..], end);
    }
  }

  lemma {:induction false} JoinedLast(parts: seq<string>, last: string)
    requires parts != []
    ensures Joined(parts + [last], '\n') == Joined(parts, '\n') + "\n" + last
  {
    if |parts| > 1 {
      assert (parts + [last])[1..] == parts[1..] + [last];
      JoinedLast(parts[1..], last);
    } else {
      assert (parts + [last])[1..] == [last];
    }
  }

  /// The text, line by line.
  lemma PemLines(der: Bytes, kind: PemLabel)
    ensures Split(DerToPem(der, kind), '\n') == [Begin(kind)] + Body(der) + [End(kind)]
    ensures kind == Certificate ==> Begin(kind) == "-----BEGIN " + "CERTIFICATE" + "-----" && End(kind) == "-----END " + "CERTIFICATE" + "-----"
    ensures kind == PrivateKey ==> Begin(kind) == "-----BEGIN " + "PRIVATE KEY" + "-----" && End(kind) == "-----END " + "PRIVATE KEY" + "-----"
    ensures kind == PublicKey ==> Begin(kind) == "-----BEGIN " + "PUBLIC KEY" + "-----" && End(kind) == "-----END " + "PUBLIC KEY" + "-----"
  {
    Labelled(kind);
    var body, lines := Body(der), [Begin(kind)] + Body(der) + [End(kind)];
    BodyIsWrapped(der);
    DashedLines(kind);
    hide Begin, End, IsLine, Dashed, Undashed, Encoded, Chunks;
    assert Joined(Chunks(Encoded(der)), '\n') == Joined(body, '\n') by {
      if der == [] {
        NothingToWrite();
      }
    }
    JoinedLast([Begin(kind)] + body, End(kind));
    assert ([Begin(kind)] + body)[1..] == body;
    SplitUndoesJoin(lines, '\n');
  }

  lemma Labelled(kind: PemLabel)
    ensures kind == Certificate ==> Begin(kind) == "-----BEGIN " + "CERTIFICATE" + "-----" && End(kind) == "-----END " + "CERTIFICATE" + "-----"
    ensures kind == PrivateKey ==> Begin(kind) == "-----BEGIN " + "PRIVATE KEY" + "-----" && End(kind) == "-----END " + "PRIVATE KEY" + "-----"
    ensures kind == PublicKey ==> Begin(kind) == "-----BEGIN " + "PUBLIC KEY" + "-----" && End(kind) == "-----END " + "PUBLIC KEY" + "-----"
  {
  }

  lemma NothingToWrite()
    ensures Chunks(Encoded([])) == []
  {
  }

  /// What was wrapped is read back.
  lemma PemRoundTrip(der: Bytes, kind: PemLabel)
    ensures PemToDer(DerToPem(der, kind)) == Some(der)
  {
    hide DerToPem, Begin, End, Body, Dashed, Undashed, Encoded, Decoded, Split;
    PemLines(der, kind);
    DashedLines(kind);
    UndashedEnds(Begin(kind), Body(der), End(kind));
    BodyIsWrapped(der);
    DecodeUndoesEncode(der);
  }
}
