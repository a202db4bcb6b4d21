/// Numerals as the standard library's formatter writes them, and texts put together with a delimiter.
module Text {
  function DigitChar(d: nat): char
    requires d < 16
  {
    if d < 10 then '0' + d as char else 'a' + (d - 10) as char
  }

  predicate IsDigit(c: char) { '0' <= c <= '9' || 'a' <= c <= 'f' }

  function DigitValue(c: char): nat {
    if '0' <= c <= '9' then c as nat - '0' as nat else if 'a' <= c <= 'f' then c as nat - 'a' as nat + 10 else 0
  }

  /// Base 10 or 16, most significant digit first, without leading zeros.
  function Digits(n: nat, base: nat): string
    requires base == 10 || base == 16
  {
    if n < base then [DigitChar(n)] else Digits(n / base, base) + [DigitChar(n % base)]
  }

  /// Zeros in front, up to a minimal width.
  function Padded(s: string, width: nat): string
    decreases width - |s|
  {
    if |s| >= width then s else Padded("0" + s, width)
  }

  function Number(s: string, base: nat): nat {
    if s == "" then 0 else Number(s[..|s| - 1], base) * base + DigitValue(s[|s| - 1])
  }

  lemma DigitRoundTrip(d: nat)
    requires d < 16
    ensures DigitValue(DigitChar(d)) == d && IsDigit(DigitChar(d))
  {
  }

  lemma NoDigits(base: nat)
    ensures Number("", base) == 0
  {
  }

  lemma Appended(s: string, d: nat, base: nat)
    requires d < 16
    ensures Number(s + [DigitChar(d)], base) == Number(s, base) * base + d
  {
    DigitRoundTrip(d);
    assert (s + [DigitChar(d)])[..|s|] == s;
  }

  lemma LastDigit(n: nat, q: nat, base: nat)
    requires (base == 10 || base == 16) && q == n / base
    ensures q * base + n % base == n
  {
    if base == 10 {
    } else {
      assert base == 16;
    }
  }

  lemma {:induction false} DigitsRoundTrip(n: nat, base: nat)
    requires base == 10 || base == 16
    ensures Number(Digits(n, base), base) == n
    ensures forall c :: c in Digits(n, base) ==> IsDigit(c)
  {
    hide Number, DigitChar, DigitValue, IsDigit;
    DigitRoundTrip(n % base);
    if n < base {
      NoDigits(base);
      Appended("", n, base);
      assert "" + [DigitChar(n)] == [DigitChar(n)];
    } else {
      var q := Number(Digits(n / base, base), base);
      DigitsRoundTrip(n / base, base);
      Appended(Digits(n / base, base), n % base, base);
      LastDigit(n, q, base);
    }
  }

  lemma {:induction false} LeadingZero(s: string, base: nat)
    ensures Number("0" + s, base) == Number(s, base)
  {
    var z := "0" + s;
    if s == "" {
      assert z[..0] == "";
    } else {
      LeadingZero(s[..|s| - 1], base);
      assert z[..|z| - 1] == "0" + s[..|s| - 1];
    }
  }

  lemma {:induction false} PaddedKeeps(s: string, width: nat, base: nat)
    requires forall c :: c in s ==> IsDigit(c)
    ensures Number(Padded(s, width), base) == Number(s, base)
    ensures forall c :: c in Padded(s, width) ==> IsDigit(c)
    decreases width - |s|
  {
    hide Number;
    if |s| < width {
      LeadingZero(s, base);
      PaddedKeeps("0" + s, width, base);
    }
  }

  function Joined(parts: seq<string>, delimiter: char): string {
    if parts == [] then ""
    else if |parts| == 1 then parts[0]
    else parts[0] + [delimiter] + Joined(parts[1..], delimiter)
  }

  /// Every part followed by the delimiter.
  function Terminated(parts: seq<string>, delimiter: char): string {
    if parts == [] then "" else Terminated(parts[..|parts| - 1], delimiter) + parts[|parts| - 1] + [delimiter]
  }

  lemma NothingYet(delimiter: char)
    ensures Terminated([], delimiter) == ""
  {
  }

  lemma TerminatedNext(parts: seq<string>, i: nat, delimiter: char)
    requires i < |parts|
    ensures Terminated(parts[..i + 1], delimiter) == Terminated(parts[..i], delimiter) + parts[i] + [delimiter]
  {
    assert parts[..i + 1][..i] == parts[..i];
  }

  ghost predicate Free(parts: seq<string>, delimiter: char) {
    forall i :: 0 <= i < |parts| ==> delimiter !in parts[i]
  }

  lemma FirstDelimiter(p: string, x: string, q: string, y: string, delimiter: char)
    requires delimiter !in p && delimiter !in q
    requires p + [delimiter] + x == q + [delimiter] + y
    ensures p == q && x == y
  {
    var s := p + [delimiter] + x;
    assert forall i :: 0 <= i < |p| ==> s[i] == p[i];
    assert forall i :: 0 <= i < |q| ==> s[i] == q[i];
    assert s[|p|] == delimiter == s[|q|];
    assert p == s[..|p|] && x == s[|p| + 1..];
  }

  lemma {:induction false} JoinedInjective(a: seq<string>, b: seq<string>, delimiter: char)
    requires |a| == |b| && Free(a, delimiter) && Free(b, delimiter)
    requires Joined(a, delimiter) == Joined(b, delimiter)
    ensures a == b
  {
    if |a| > 1 {
      FirstDelimiter(a[0], Joined(a[1..], delimiter), b[0], Joined(b[1..], delimiter), delimiter);
      JoinedInjective(a[1..], b[1..], delimiter);
      assert a == [a[0]] + a[1..] && b == [b[0]] + b[1..];
    } else if |a| == 1 {
      assert a == [a[0]] && b == [b[0]];
    }
  }

  /// Where the list is cut: the terminated front and the joined rest make the whole, unless there is
  /// no rest, and then a delimiter is left over.
  lemma {:induction false} CutAndJoin(parts: seq<string>, cut: nat, delimiter: char)
    requires cut <= |parts|
    ensures Terminated(parts[..cut], delimiter) + Joined(parts[cut..], delimiter) ==
            Joined(parts, delimiter) + if 0 < cut == |parts| then [delimiter] else ""
  {
    if cut == 0 {
      assert parts[..0] == [] && parts[0..] == parts;
    } else {
      CutAndJoin(parts, cut - 1, delimiter);
      assert parts[..cut][..cut - 1] == parts[..cut - 1];
      assert parts[cut - 1..][1..] == parts[cut..];
      assert parts[cut - 1..][0] == parts[cut - 1];
    }
  }

  lemma {:induction false} TerminatedIsJoined(parts: seq<string>, delimiter: char)
    ensures Terminated(parts, delimiter) == if parts == [] then "" else Joined(parts, delimiter) + [delimiter]
  {
    CutAndJoin(parts, |parts|, delimiter);
    assert parts[..|parts|] == parts;
  }

  function IndexOf(s: string, c: char): (i: nat)
    requires c in s
    ensures i < |s| && s[i] == c && c !in s[..i]
  {
    if s[0] == c then 0
    else
      var i := 1 + IndexOf(s[1..], c);
      assert s[..i] == [s[0]] + s[1..][..i - 1];
      i
  }

  /// The pieces between delimiters.
  function Split(s: string, delimiter: char): (parts: seq<string>)
    ensures parts != []
  {
    if delimiter !in s then [s]
    else
      var i := IndexOf(s, delimiter);
      [s[..i]] + Split(s[i + 1..], delimiter)
  }

  lemma SplitFirst(part: string, rest: string, delimiter: char)
    requires delimiter !in part
    ensures Split(part + [delimiter] + rest, delimiter) == [part] + Split(rest, delimiter)
  {
    var s := part + [delimiter] + rest;
    assert s[|part|] == delimiter;
    var i := IndexOf(s, delimiter);
    assert s == s[..i] + [delimiter] + s[i + 1..];
    FirstDelimiter(s[..i], s[i + 1..], part, rest, delimiter);
  }

  lemma {:induction false} SplitUndoesJoin(parts: seq<string>, delimiter: char)
    requires parts != [] && Free(parts, delimiter)
    ensures Split(Joined(parts, delimiter), delimiter) == parts
  {
    if |parts| == 1 {
      assert parts == [parts[0]];
    } else {
      SplitUndoesJoin(parts[1..], delimiter);
      hide Split;
      SplitFirst(parts[0], Joined(parts[1..], delimiter), delimiter);
      assert parts == [parts[0]] + parts[1..];
    }
  }
}
