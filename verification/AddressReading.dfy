/// Reading a split address back: numerals, segments, and networks of the other family.
module AddressReading {
  import opened Text
  import opened AddressSplit

  // ---------------------------------------------------------------------------------------------
  // Numerals
  // ---------------------------------------------------------------------------------------------

  /// Digits above nine are small letters.
  lemma DigitCharExactly(d: nat)
    requires d < 16
    ensures DigitChar(d) == "0123456789abcdef"[d]
  {
  }

  /// A numeral has as many digits as it takes, and begins with a zero only for zero itself.
  lemma {:induction false} DigitsShape(n: nat, base: nat, width: nat)
    requires (base == 10 || base == 16) && 1 <= width && n < Power(base, width)
    ensures 1 <= |Digits(n, base)| <= width
    ensures Digits(n, base)[0] == '0' <==> n == 0
  {
    DigitRoundTrip(n % base);
    if n >= base {
      assert width > 1;
      assert Power(base, width) == base * Power(base, width - 1);
      DividedBelow(n, base, Power(base, width - 1));
      DigitsShape(n / base, base, width - 1);
    } else {
      DigitCharExactly(n);
    }
  }

  function Power(base: nat, k: nat): nat {
    if k == 0 then 1 else base * Power(base, k - 1)
  }

  lemma DividedBelow(n: nat, base: nat, bound: nat)
    requires (base == 10 || base == 16) && base <= n < base * bound
    ensures 1 <= n / base < bound
  {
    if base == 10 {
    } else {
      assert base == 16;
    }
  }

  lemma {:induction false} PaddedWidth(s: string, width: nat)
    requires |s| <= width
    ensures |Padded(s, width)| == width
    decreases width - |s|
  {
    if |s| < width {
      PaddedWidth("0" + s, width);
    }
  }

  // ---------------------------------------------------------------------------------------------
  // Addresses
  // ---------------------------------------------------------------------------------------------

  /// A number moved up by k bits.
  function Shifted(v: nat, k: nat): nat {
    if k == 0 then v else 2 * Shifted(v, k - 1)
  }

  lemma {:induction false} ValueBelow(bits: Bits)
    ensures Value(bits) < Shifted(1, |bits|)
  {
    if bits != [] {
      ValueBelow(bits[..|bits| - 1]);
    }
  }

  /// The value of a row of bits, told by its bits: without those after the first i it is moved down by
  /// as many bits, and has the last of those left for its parity.
  lemma {:induction false} ValueExactly(bits: Bits, i: nat) returns (dropped: nat)
    requires i <= |bits|
    ensures Value(bits) == Shifted(Value(bits[..i]), |bits| - i) + dropped && dropped < Shifted(1, |bits| - i)
    ensures i > 0 ==> (Value(bits[..i]) % 2 == 1 <==> bits[i - 1])
  {
    var n := |bits|;
    if i == n {
      dropped := 0;
      assert bits[..n] == bits;
    } else {
      var init := bits[..n - 1];
      var before := ValueExactly(init, i);
      assert init[..i] == bits[..i];
      dropped := 2 * before + if bits[n - 1] then 1 else 0;
    }
  }

  /// The address in full can be read back: cut at the dots an IPv4 address gives its four segments in
  /// decimal and without leading zeros; cut at the colons an IPv6 address gives its eight segments in
  /// four hexadecimal digits each.
  lemma RenderingReads(a: Address, k: nat)
    ensures a.family == V4 ==> |Split(Rendering(a), '.')| == 4
    ensures a.family == V6 ==> |Split(Rendering(a), ':')| == 8
    ensures a.family == V4 && k < 4 ==>
              var part := Split(Rendering(a), '.')[k];
              && Number(part, 10) == Value(a.bits[8 * k..8 * k + 8]) && 1 <= |part| <= 3
              && (part[0] == '0' ==> part == "0")
    ensures a.family == V6 && k < 8 ==>
              var part := Split(Rendering(a), ':')[k];
              Number(part, 16) == Value(a.bits[16 * k..16 * k + 16]) && |part| == 4
  {
    RenderingSplits(a);
    hide Split, Rendering, Parts, Segments, SegmentBits, Value, Number;
    if a.family == V4 && k < 4 {
      FormattedShape(a, k);
      SegmentIs(a, k);
    } else if a.family == V6 && k < 8 {
      FormattedShape(a, k);
      SegmentIs(a, k);
    }
  }

  lemma RenderingSplits(a: Address)
    ensures Split(Rendering(a), if a.family == V4 then '.' else ':') == Parts(a)
  {
    var c := SegmentCount(a.family);
    PartsAgree(a, a, 0, c);
    assert Parts(a)[0..c] == Parts(a);
    hide Split, Joined, Parts;
    SplitUndoesJoin(Parts(a), Delimiter(a.family));
  }

  lemma SegmentIs(a: Address, k: nat)
    requires k < SegmentCount(a.family)
    ensures a.family == V4 ==> SegmentBits(a, k) == a.bits[8 * k..8 * k + 8]
    ensures a.family == V6 ==> SegmentBits(a, k) == a.bits[16 * k..16 * k + 16]
  {
  }

  lemma FormattedShape(a: Address, k: nat)
    requires k < SegmentCount(a.family)
    ensures k < |Parts(a)| == SegmentCount(a.family)
    ensures var part := Parts(a)[k];
            && Number(part, if a.family == V4 then 10 else 16) == Value(SegmentBits(a, k))
            && (a.family == V4 ==> 1 <= |part| <= 3 && (part[0] == '0' ==> part == "0"))
            && (a.family == V6 ==> |part| == 4)
  {
    var bits := SegmentBits(a, k);
    var v := Value(bits);
    ValueBelow(bits);
    FormattedRoundTrip(a.family, v);
    Powers();
    hide Power, Shifted;
    if a.family == V4 {
      DigitsShape(v, 10, 3);
    } else {
      DigitsShape(v, 16, 4);
      PaddedWidth(Digits(v, 16), 4);
    }
  }

  lemma Powers()
    ensures Shifted(1, 8) == 256 && Shifted(1, 16) == 65536 && Power(10, 3) == 1000 && Power(16, 4) == 65536
  {
    assert Shifted(1, 4) == 16;
    assert Shifted(1, 8) == 16 * Shifted(1, 4);
    assert Shifted(1, 12) == 16 * Shifted(1, 8);
    assert Shifted(1, 16) == 16 * Shifted(1, 12);
    assert Power(10, 2) == 100;
    assert Power(16, 2) == 256;
    assert Power(16, 4) == 256 * Power(16, 2);
  }

  /// With a network of the other family the first four segments are compared: the cut is where the
  /// network's own prefix puts it, at most after these. If it is before, the parts put together are the
  /// address in full; otherwise the first four segments are the network part, and there is no other.
  lemma MixedFamilies(a: Address, n: Network)
    requires a.family != n.host.family
    ensures Cut(a, n) == if Covered(n) < 4 then Covered(n) else 4
    ensures Cut(a, n) < 4 ==> NetworkPart(a, n) + ModifiablePart(a, n) == Rendering(a)
    ensures Cut(a, n) == 4 ==> ModifiablePart(a, n) == "" && NetworkPart(a, n) == Terminated(Parts(a)[..4], Delimiter(a.family))
  {
    hide Segments, Covered, Parts;
    var cut := Cut(a, n);
    if cut < 4 {
      SegmentFixedExactly(n, cut);
    }
    if cut > 0 {
      SegmentFixedExactly(n, cut - 1);
    }
    CutAndJoin(Parts(a), cut, Delimiter(a.family));
  }
}
