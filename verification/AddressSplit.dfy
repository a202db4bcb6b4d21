/// Splitting an address of a network into the part all its addresses share and the part a user may
/// choose. An address is the row of its bits, most significant first.
module AddressSplit {
  import opened Text

  datatype Family = V4 | V6

  type Bits = seq<bool>

  function SegmentCount(f: Family): nat { if f == V4 then 4 else 8 }

  function SegmentWidth(f: Family): nat { if f == V4 then 8 else 16 }

  function Size(f: Family): nat { if f == V4 then 32 else 128 }

  datatype RawAddress = Address(family: Family, bits: Bits)

  type Address = a: RawAddress | |a.bits| == Size(a.family) witness Address(V4, seq(32, _ => false))

  datatype RawNetwork = Network(host: Address, prefix: nat)

  type Network = n: RawNetwork | n.prefix <= Size(n.host.family)
    witness Network(Address(V4, seq(32, _ => false)), 0)

  function Not(a: Bits): (r: Bits)
    ensures |r| == |a| && forall i :: 0 <= i < |a| ==> r[i] == !a[i]
  {
    seq(|a|, i requires 0 <= i < |a| => !a[i])
  }

  function And(a: Bits, b: Bits): (r: Bits)
    requires |a| == |b|
    ensures |r| == |a| && forall i :: 0 <= i < |a| ==> r[i] == (a[i] && b[i])
  {
    seq(|a|, i requires 0 <= i < |a| => a[i] && b[i])
  }

  function Or(a: Bits, b: Bits): (r: Bits)
    requires |a| == |b|
    ensures |r| == |a| && forall i :: 0 <= i < |a| ==> r[i] == (a[i] || b[i])
  {
    seq(|a|, i requires 0 <= i < |a| => a[i] || b[i])
  }

  function Mask(n: Network): (r: Bits)
    ensures |r| == Size(n.host.family) && forall i :: 0 <= i < |r| ==> r[i] == (i < n.prefix)
  {
    seq(Size(n.host.family), i => i < n.prefix)
  }

  function NetworkAddress(n: Network): (r: Address)
    ensures r.family == n.host.family
  {
    Address(n.host.family, And(n.host.bits, Mask(n)))
  }

  function LastAddress(n: Network): (r: Address)
    ensures r.family == n.host.family
  {
    Address(n.host.family, Or(n.host.bits, Not(Mask(n))))
  }

  predicate Contains(n: Network, a: Address) {
    a.family == n.host.family && And(a.bits, Mask(n)) == NetworkAddress(n).bits
  }

  function Value(bits: Bits): nat {
    if bits == [] then 0 else 2 * Value(bits[..|bits| - 1]) + if bits[|bits| - 1] then 1 else 0
  }

  /// Where bit i of segment k is.
  function Position(f: Family, k: nat, i: nat): nat { if f == V4 then 8 * k + i else 16 * k + i }

  /// How many segments the prefix covers.
  function Covered(n: Network): (k: nat)
    ensures k <= SegmentCount(n.host.family)
  {
    if n.host.family == V4 then n.prefix / 8 else n.prefix / 16
  }

  function SegmentBits(a: Address, k: nat): (r: Bits)
    requires k < SegmentCount(a.family)
    ensures |r| == SegmentWidth(a.family)
    ensures forall i :: 0 <= i < |r| ==> r[i] == a.bits[Position(a.family, k, i)]
  {
    a.bits[Position(a.family, k, 0)..Position(a.family, k + 1, 0)]
  }

  function Segments(a: Address): (r: seq<nat>)
    ensures |r| == SegmentCount(a.family)
    ensures forall k :: 0 <= k < |r| ==> r[k] == Value(SegmentBits(a, k))
  {
    seq(SegmentCount(a.family), k requires 0 <= k < SegmentCount(a.family) => Value(SegmentBits(a, k)))
  }

  function Delimiter(f: Family): char { if f == V4 then '.' else ':' }

  function Formatted(f: Family, segment: nat): string {
    if f == V4 then Digits(segment, 10) else Padded(Digits(segment, 16), 4)
  }

  function Parts(a: Address): (r: seq<string>)
    ensures |r| == SegmentCount(a.family)
    ensures forall k :: 0 <= k < |r| ==> r[k] == Formatted(a.family, Segments(a)[k])
  {
    seq(SegmentCount(a.family), k requires 0 <= k < SegmentCount(a.family) => Formatted(a.family, Segments(a)[k]))
  }

  /// All segments in full, with delimiters between them.
  function Rendering(a: Address): string {
    Joined(Parts(a), Delimiter(a.family))
  }

  /// Segments up to the first in which the two lists differ.
  function CommonFront(a: seq<nat>, b: seq<nat>, limit: nat): (n: nat)
    requires limit <= |a| && limit <= |b|
    ensures n <= limit && forall i :: 0 <= i < n ==> a[i] == b[i]
    ensures n < limit ==> a[n] != b[n]
  {
    if limit == 0 then 0
    else
      var n := CommonFront(a, b, limit - 1);
      if n == limit - 1 && a[n] == b[n] then limit else n
  }

  /// How many segments of the three lists there are to go through together.
  function Zipped(a: Address, n: Network): nat {
    if SegmentCount(a.family) <= SegmentCount(n.host.family) then SegmentCount(a.family) else SegmentCount(n.host.family)
  }

  function Cut(a: Address, n: Network): (k: nat)
    ensures k <= Zipped(a, n)
  {
    CommonFront(Segments(LastAddress(n)), Segments(NetworkAddress(n)), Zipped(a, n))
  }

  function NetworkPart(a: Address, n: Network): string {
    Terminated(Parts(a)[..Cut(a, n)], Delimiter(a.family))
  }

  function ModifiablePart(a: Address, n: Network): string {
    if Cut(a, n) == Zipped(a, n) then "" else Joined(Parts(a)[Cut(a, n)..], Delimiter(a.family))
  }

  lemma CutSeparates(a: Address, n: Network, i: nat)
    requires i < Zipped(a, n)
    ensures i == Cut(a, n) ==> Segments(LastAddress(n))[i] != Segments(NetworkAddress(n))[i]
    ensures i < Cut(a, n) ==> Segments(LastAddress(n))[i] == Segments(NetworkAddress(n))[i]
  {
    hide Segments;
  }

  method SplitIp(a: Address, n: Network) returns (networkPart: string, modifiablePart: string)
    ensures networkPart == NetworkPart(a, n) && modifiablePart == ModifiablePart(a, n)
    ensures a.family == n.host.family ==>
              networkPart + modifiablePart ==
              Rendering(a) + if n.prefix == Size(a.family) then [Delimiter(a.family)] else ""
  {
    hide Segments, Parts, Formatted, Rendering, LastAddress, NetworkAddress, Joined, Terminated, Cut, Delimiter;
    var segments, last, first := Segments(a), Segments(LastAddress(n)), Segments(NetworkAddress(n));
    var delimiter := Delimiter(a.family);
    networkPart, modifiablePart := "", "";
    NothingYet(delimiter);
    ghost var cut := Cut(a, n);
    var i := 0;
    while i < |last| && i < |first| && i < |segments|
      invariant i <= cut <= Zipped(a, n)
      invariant networkPart == Terminated(Parts(a)[..i], delimiter) && modifiablePart == ""
    {
      CutSeparates(a, n, i);
      if last[i] != first[i] {
        modifiablePart := Joined(FormattedFrom(a, i), delimiter);
        break;
      }
      networkPart := networkPart + Formatted(a.family, segments[i]) + [delimiter];
      TerminatedNext(Parts(a), i, delimiter);
      i := i + 1;
    }
    if a.family == n.host.family {
      SplitRendering(a, n);
    }
  }

  function FormattedFrom(a: Address, i: nat): (r: seq<string>)
    requires i <= SegmentCount(a.family)
    ensures r == Parts(a)[i..]
  {
    var rest := Segments(a)[i..];
    seq(|rest|, k requires 0 <= k < |rest| => Formatted(a.family, rest[k]))
  }

  // ---------------------------------------------------------------------------------------------
  // Where the cut is, and what the parts say
  // ---------------------------------------------------------------------------------------------

  lemma {:induction false} ValueInjective(a: Bits, b: Bits)
    requires |a| == |b|
    ensures Value(a) == Value(b) <==> a == b
  {
    if a != [] {
      var n := |a| - 1;
      ValueInjective(a[..n], b[..n]);
      assert a == a[..n] + [a[n]] && b == b[..n] + [b[n]];
    }
  }

  /// The network address and the last address agree in a segment exactly if the prefix covers it.
  lemma SegmentFixedExactly(n: Network, k: nat)
    requires k < SegmentCount(n.host.family)
    ensures Segments(LastAddress(n))[k] == Segments(NetworkAddress(n))[k] <==> k < Covered(n)
  {
    var f := n.host.family;
    var l, m := SegmentBits(LastAddress(n), k), SegmentBits(NetworkAddress(n), k);
    ValueInjective(l, m);
    var i := SegmentWidth(f) - 1;
    assert l[i] == LastAddress(n).bits[Position(f, k, i)] && m[i] == NetworkAddress(n).bits[Position(f, k, i)];
  }

  lemma CutIsPrefix(a: Address, n: Network)
    requires a.family == n.host.family
    ensures Cut(a, n) == Covered(n)
  {
    hide Segments, Covered;
    var cut := Cut(a, n);
    if cut < SegmentCount(a.family) {
      SegmentFixedExactly(n, cut);
    }
    if cut > 0 {
      SegmentFixedExactly(n, cut - 1);
    }
  }

  /// The parts put together are the address in full; if the prefix leaves nothing to choose, with a
  /// delimiter left over.
  lemma SplitRendering(a: Address, n: Network)
    requires a.family == n.host.family
    ensures NetworkPart(a, n) + ModifiablePart(a, n) ==
            Rendering(a) + if n.prefix == Size(a.family) then [Delimiter(a.family)] else ""
  {
    CutIsPrefix(a, n);
    CutAndJoin(Parts(a), Cut(a, n), Delimiter(a.family));
    assert Parts(a)[SegmentCount(a.family)..] == [];
  }

  lemma FormattedRoundTrip(f: Family, s: nat)
    ensures Number(Formatted(f, s), if f == V4 then 10 else 16) == s
    ensures Delimiter(f) !in Formatted(f, s)
  {
    hide Number, Padded, Digits;
    if f == V4 {
      DigitsRoundTrip(s, 10);
    } else {
      DigitsRoundTrip(s, 16);
      PaddedKeeps(Digits(s, 16), 4, 16);
    }
  }

  /// Lists of formatted segments are equal exactly if the segments are.
  lemma PartsAgree(a: Address, b: Address, from: nat, to: nat)
    requires a.family == b.family && from <= to <= SegmentCount(a.family)
    ensures Free(Parts(a)[from..to], Delimiter(a.family))
    ensures Parts(a)[from..to] == Parts(b)[from..to] <==> Segments(a)[from..to] == Segments(b)[from..to]
  {
    hide Segments, Parts;
    forall k | from <= k < to
      ensures Delimiter(a.family) !in Parts(a)[k]
      ensures Parts(a)[k] == Parts(b)[k] <==> Segments(a)[k] == Segments(b)[k]
    {
      FormattedRoundTrip(a.family, Segments(a)[k]);
      FormattedRoundTrip(b.family, Segments(b)[k]);
    }
    var ps, qs := Parts(a)[from..to], Parts(b)[from..to];
    var ss, ts := Segments(a)[from..to], Segments(b)[from..to];
    forall k | 0 <= k < to - from ensures ps[k] == qs[k] <==> ss[k] == ts[k] {
      assert ps[k] == Parts(a)[from + k] && ss[k] == Segments(a)[from + k];
    }
    assert ps == qs <==> forall k :: 0 <= k < to - from ==> ps[k] == qs[k];
    assert ss == ts <==> forall k :: 0 <= k < to - from ==> ss[k] == ts[k];
  }

  lemma SegmentsDetermine(a: Address, b: Address)
    requires a.family == b.family && Segments(a) == Segments(b)
    ensures a == b
  {
    forall m | 0 <= m < Size(a.family) ensures a.bits[m] == b.bits[m] {
      var k, i := if a.family == V4 then m / 8 else m / 16, if a.family == V4 then m % 8 else m % 16;
      assert m == Position(a.family, k, i);
      assert Segments(a)[k] == Segments(b)[k];
      ValueInjective(SegmentBits(a, k), SegmentBits(b, k));
      assert SegmentBits(a, k)[i] == SegmentBits(b, k)[i];
    }
  }

  /// The network part tells apart exactly the addresses that differ in a segment the prefix covers.
  lemma NetworkPartSays(a: Address, b: Address, n: Network)
    requires a.family == b.family == n.host.family
    ensures NetworkPart(a, n) == NetworkPart(b, n) <==> Segments(a)[..Covered(n)] == Segments(b)[..Covered(n)]
  {
    hide Segments, Parts, Covered;
    var k, d := Covered(n), Delimiter(a.family);
    CutIsPrefix(a, n);
    CutIsPrefix(b, n);
    PartsAgree(a, b, 0, k);
    PartsAgree(b, a, 0, k);
    assert Parts(a)[0..k] == Parts(a)[..k] && Parts(b)[0..k] == Parts(b)[..k];
    assert Segments(a)[0..k] == Segments(a)[..k] && Segments(b)[0..k] == Segments(b)[..k];
    TerminatedIsJoined(Parts(a)[..k], d);
    TerminatedIsJoined(Parts(b)[..k], d);
    if NetworkPart(a, n) == NetworkPart(b, n) && k > 0 {
      var s, t := Joined(Parts(a)[..k], d), Joined(Parts(b)[..k], d);
      assert (s + [d])[..|s|] == s && (t + [d])[..|t|] == t;
      JoinedInjective(Parts(a)[..k], Parts(b)[..k], d);
    }
  }

  /// The network part is the same for all addresses of the network.
  lemma NetworkPartConstant(a: Address, b: Address, n: Network)
    requires Contains(n, a) && Contains(n, b)
    ensures NetworkPart(a, n) == NetworkPart(b, n)
  {
    forall k | 0 <= k < Covered(n) ensures Segments(a)[k] == Segments(b)[k] {
      CoveredSegmentShared(a, b, n, k);
    }
    NetworkPartSays(a, b, n);
  }

  lemma CoveredSegmentShared(a: Address, b: Address, n: Network, k: nat)
    requires Contains(n, a) && Contains(n, b) && k < Covered(n)
    ensures Segments(a)[k] == Segments(b)[k]
  {
    var p, q := SegmentBits(a, k), SegmentBits(b, k);
    forall i | 0 <= i < |p| ensures p[i] == q[i] {
      var m := Position(a.family, k, i);
      assert And(a.bits, Mask(n))[m] == And(b.bits, Mask(n))[m];
    }
    assert p == q;
  }

  /// Within a network the modifiable part determines the address.
  lemma ModifiablePartDetermines(a: Address, b: Address, n: Network)
    requires Contains(n, a) && Contains(n, b)
    ensures ModifiablePart(a, n) == ModifiablePart(b, n) <==> a == b
  {
    if ModifiablePart(a, n) == ModifiablePart(b, n) {
      NetworkPartConstant(a, b, n);
      PartsDetermine(a, b, n);
    }
  }

  lemma ModifiableRest(a: Address, n: Network)
    requires a.family == n.host.family
    ensures ModifiablePart(a, n) == Joined(Parts(a)[Covered(n)..], Delimiter(a.family))
  {
    CutIsPrefix(a, n);
  }

  lemma RestDetermines(a: Address, b: Address, k: nat)
    requires a.family == b.family && k <= SegmentCount(a.family)
    requires Joined(Parts(a)[k..], Delimiter(a.family)) == Joined(Parts(b)[k..], Delimiter(a.family))
    ensures Segments(a)[k..] == Segments(b)[k..]
  {
    hide Segments, Parts;
    hide Joined, Free, Delimiter, SegmentWidth;
    var c, ps, qs := SegmentCount(a.family), Parts(a)[k..], Parts(b)[k..];
    assert ps == Parts(a)[k..c] && qs == Parts(b)[k..c];
    PartsAgree(a, b, k, c);
    PartsAgree(b, a, k, c);
    JoinedInjective(ps, qs, Delimiter(a.family));
    assert Segments(a)[k..c] == Segments(a)[k..] && Segments(b)[k..c] == Segments(b)[k..];
  }

  /// The two parts together determine the address.
  lemma PartsDetermine(a: Address, b: Address, n: Network)
    requires a.family == b.family == n.host.family
    ensures NetworkPart(a, n) == NetworkPart(b, n) && ModifiablePart(a, n) == ModifiablePart(b, n) <==> a == b
  {
    if NetworkPart(a, n) == NetworkPart(b, n) && ModifiablePart(a, n) == ModifiablePart(b, n) {
      hide *;
      NetworkPartSays(a, b, n);
      ModifiableRest(a, n);
      ModifiableRest(b, n);
      RestDetermines(a, b, Covered(n));
      assert Segments(a) == Segments(a)[..Covered(n)] + Segments(a)[Covered(n)..];
      assert Segments(b) == Segments(b)[..Covered(n)] + Segments(b)[Covered(n)..];
      SegmentsDetermine(a, b);
    }
  }

  /// The cut is as far to the right as it can be: the segments before it are those that no two
  /// addresses of the network differ in.
  lemma CutIsTight(n: Network, k: nat)
    requires k < SegmentCount(n.host.family)
    ensures k < Covered(n) <==>
            forall a: Address, b: Address :: Contains(n, a) && Contains(n, b) ==> SameSegment(a, b, k)
  {
    SegmentFixedExactly(n, k);
    assert Contains(n, NetworkAddress(n)) && Contains(n, LastAddress(n));
    if k < Covered(n) {
      forall a: Address, b: Address | Contains(n, a) && Contains(n, b) ensures SameSegment(a, b, k) {
        CoveredSegmentShared(a, b, n, k);
      }
    } else {
      assert !SameSegment(LastAddress(n), NetworkAddress(n), k);
    }
  }

  predicate SameSegment(a: Address, b: Address, k: nat) {
    a.family == b.family && k < SegmentCount(a.family) && Segments(a)[k] == Segments(b)[k]
  }
}
