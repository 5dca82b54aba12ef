/** The 4-, 3- and 1-bit code packers: `pack_nibbles`, `pack_3bit`, `pack_db1` and their inverses, on one
    row of codes. */
module Packing {
  import opened Collections
  import opened Wrappers

  type Byte = bv8

  /** The three formats: groups of codes in groups of bytes. */
  datatype Format = Four | Three | One {

    /** Codes in a group. */
    function Codes(): (g: nat)
      ensures g == 2 || g == 8
    {
      if Four? then 2 else 8
    }

    /** Bytes in a group. */
    function Bytes(): (h: nat)
      ensures h == 1 || h == 3
    {
      if Three? then 3 else 1
    }

    /** Where group k starts among the codes, and among the bytes. */
    function CodePos(k: nat): nat {
      if Four? then 2 * k else 8 * k
    }

    function BytePos(k: nat): nat {
      if Three? then 3 * k else k
    }

    /** Codes in range are below this. */
    function Limit(): (l: Byte)
      ensures l > 0
    {
      match this
      case Four => 16
      case Three => 8
      case One => 2
    }
  }

  predicate Below(codes: seq<Byte>, limit: Byte) {
    forall i :: 0 <= i < |codes| ==> codes[i] < limit
  }

  // --- One group ------------------------------------------------------------------------------------------

  function Bit(c: Byte, i: nat): Byte
    requires i < 8
  {
    (if c > 0 then 1 else 0) << i
  }

  function PackThree(c: seq<Byte>): seq<Byte>
    requires |c| == 8
  {
    [LowByte(c[0], c[1], c[2]), MidByte(c[2], c[3], c[4], c[5]), HighByte(c[5], c[6], c[7])]
  }

  function LowByte(c0: Byte, c1: Byte, c2: Byte): Byte {
    c0 | (c1 << 3) | (c2 << 6)
  }

  function MidByte(c2: Byte, c3: Byte, c4: Byte, c5: Byte): Byte {
    (c2 >> 2) | (c3 << 1) | (c4 << 4) | (c5 << 7)
  }

  function HighByte(c5: Byte, c6: Byte, c7: Byte): Byte {
    (c5 >> 1) | (c6 << 2) | (c7 << 5)
  }

  /** The first n bits of a 1-bit group, as the loop over bits collects them. */
  function Bits(c: seq<Byte>, n: nat): Byte
    requires |c| == 8 && n <= 8
    decreases n
  {
    if n == 0 then 0 else Bits(c, n - 1) | Bit(c[n - 1], n - 1)
  }

  function PackGroup(f: Format, c: seq<Byte>): (b: seq<Byte>)
    requires |c| == f.Codes()
    ensures |b| == f.Bytes()
  {
    match f
    case Four => [c[0] | (c[1] << 4)]
    case Three => PackThree(c)
    case One => [Bits(c, 8)]
  }

  function ThreeAt(b0: Byte, b1: Byte, b2: Byte, r: nat): Byte
    requires r < 8
  {
    if r == 0 then b0 & 0x07
    else if r == 1 then (b0 >> 3) & 0x07
    else if r == 2 then ((b0 >> 6) | (b1 << 2)) & 0x07
    else if r == 3 then (b1 >> 1) & 0x07
    else if r == 4 then (b1 >> 4) & 0x07
    else if r == 5 then ((b1 >> 7) | (b2 << 1)) & 0x07
    else if r == 6 then (b2 >> 2) & 0x07
    else (b2 >> 5) & 0x07
  }

  /** Code r of a group of bytes. */
  function CodeAt(f: Format, b: seq<Byte>, r: nat): Byte
    requires |b| == f.Bytes() && r < f.Codes()
  {
    match f
    case Four => if r == 0 then b[0] & 0x0F else (b[0] >> 4) & 0x0F
    case Three => ThreeAt(b[0], b[1], b[2], r)
    case One => (b[0] >> r) & 1
  }

  function CodesUpTo(f: Format, b: seq<Byte>, n: nat): (c: seq<Byte>)
    requires |b| == f.Bytes() && n <= f.Codes()
    ensures |c| == n && forall r :: 0 <= r < n ==> c[r] == CodeAt(f, b, r)
    decreases n
  {
    if n == 0 then [] else CodesUpTo(f, b, n - 1) + [CodeAt(f, b, n - 1)]
  }

  function UnpackGroup(f: Format, b: seq<Byte>): (c: seq<Byte>)
    requires |b| == f.Bytes()
    ensures |c| == f.Codes()
  {
    CodesUpTo(f, b, f.Codes())
  }

  lemma {:induction false} FourBack(c0: Byte, c1: Byte)
    ensures (c0 | (c1 << 4)) & 0x0F == c0 && ((c0 | (c1 << 4)) >> 4) & 0x0F == c1 <==> c0 < 16 && c1 < 16
  {}

  lemma {:induction false} LowBack(c0: Byte, c1: Byte, c2: Byte, b1: Byte, b2: Byte)
    requires c0 < 8 && c1 < 8
    ensures ThreeAt(LowByte(c0, c1, c2), b1, b2, 0) == c0
    ensures ThreeAt(LowByte(c0, c1, c2), b1, b2, 1) == c1
  {}

  lemma {:induction false} LowMidBack(c0: Byte, c1: Byte, c2: Byte, c3: Byte, c4: Byte, c5: Byte, b2: Byte)
    requires c0 < 8 && c1 < 8 && c2 < 8
    ensures ThreeAt(LowByte(c0, c1, c2), MidByte(c2, c3, c4, c5), b2, 2) == c2
  {}

  lemma {:induction false} MidBack(b0: Byte, c2: Byte, c3: Byte, c4: Byte, c5: Byte, b2: Byte)
    requires c2 < 8 && c3 < 8 && c4 < 8
    ensures ThreeAt(b0, MidByte(c2, c3, c4, c5), b2, 3) == c3
    ensures ThreeAt(b0, MidByte(c2, c3, c4, c5), b2, 4) == c4
  {}

  lemma {:induction false} MidHighBack(b0: Byte, c2: Byte, c3: Byte, c4: Byte, c5: Byte, c6: Byte, c7: Byte)
    requires c2 < 8 && c3 < 8 && c4 < 8 && c5 < 8
    ensures ThreeAt(b0, MidByte(c2, c3, c4, c5), HighByte(c5, c6, c7), 5) == c5
  {}

  lemma {:induction false} HighBack(b0: Byte, b1: Byte, c5: Byte, c6: Byte, c7: Byte)
    requires c5 < 8 && c6 < 8 && c7 < 8
    ensures ThreeAt(b0, b1, HighByte(c5, c6, c7), 6) == c6
    ensures ThreeAt(b0, b1, HighByte(c5, c6, c7), 7) == c7
  {}

  /** Eight codes below 8 come back from three bytes. */
  lemma {:induction false} ThreeBack(c: seq<Byte>, r: nat)
    requires |c| == 8 && Below(c, 8) && r < 8
    ensures ThreeAt(PackThree(c)[0], PackThree(c)[1], PackThree(c)[2], r) == c[r]
  {
    hide LowByte, MidByte, HighByte, ThreeAt;
    LowBack(c[0], c[1], c[2], PackThree(c)[1], PackThree(c)[2]);
    LowMidBack(c[0], c[1], c[2], c[3], c[4], c[5], PackThree(c)[2]);
    MidBack(PackThree(c)[0], c[2], c[3], c[4], c[5], PackThree(c)[2]);
    MidHighBack(PackThree(c)[0], c[2], c[3], c[4], c[5], c[6], c[7]);
    HighBack(PackThree(c)[0], PackThree(c)[1], c[5], c[6], c[7]);
  }

  lemma {:induction false} ThreeOnto(b0: Byte, b1: Byte, b2: Byte)
    ensures LowByte(ThreeAt(b0, b1, b2, 0), ThreeAt(b0, b1, b2, 1), ThreeAt(b0, b1, b2, 2)) == b0
    ensures b1
      == MidByte(ThreeAt(b0, b1, b2, 2), ThreeAt(b0, b1, b2, 3), ThreeAt(b0, b1, b2, 4), ThreeAt(b0, b1, b2, 5))
    ensures HighByte(ThreeAt(b0, b1, b2, 5), ThreeAt(b0, b1, b2, 6), ThreeAt(b0, b1, b2, 7)) == b2
  {}

  function OrAll(x0: Byte, x1: Byte, x2: Byte, x3: Byte, x4: Byte, x5: Byte, x6: Byte, x7: Byte): Byte {
    x0 | x1 | x2 | x3 | x4 | x5 | x6 | x7
  }

  lemma {:induction false} BitsAll(c: seq<Byte>)
    requires |c| == 8
    ensures Bits(c, 8) == OrAll(Bit(c[0], 0), Bit(c[1], 1), Bit(c[2], 2), Bit(c[3], 3), Bit(c[4], 4), Bit(c[5], 5),
                                Bit(c[6], 6), Bit(c[7], 7))
  {
    BitsNone(c);
    hide Bits, Bit;
    BitsNext(c, 0);
    BitsNext(c, 1);
    BitsNext(c, 2);
    BitsNext(c, 3);
    BitsNext(c, 4);
    BitsNext(c, 5);
    BitsNext(c, 6);
    BitsNext(c, 7);
  }

  lemma {:induction false} BitsNone(c: seq<Byte>)
    requires |c| == 8
    ensures Bits(c, 0) == 0
  {}

  /** The eight bits of a byte. */
  lemma {:induction false} BitsAt(c: seq<Byte>, r: nat)
    requires |c| == 8 && r < 8
    ensures (Bits(c, 8) >> r) & 1 == if c[r] > 0 then 1 else 0
  {
    assert Bits(c, 8) == (((((((Bit(c[0], 0) | Bit(c[1], 1)) | Bit(c[2], 2)) | Bit(c[3], 3)) | Bit(c[4], 4))
      | Bit(c[5], 5)) | Bit(c[6], 6)) | Bit(c[7], 7));
  }

  function Place(b: Byte, r: nat): Byte
    requires r < 8
  {
    ((b >> r) & 1) << r
  }

  lemma {:induction false} PlacesAll(b: Byte)
    ensures OrAll(Place(b, 0), Place(b, 1), Place(b, 2), Place(b, 3), Place(b, 4), Place(b, 5), Place(b, 6),
                  Place(b, 7))
      == b
  {}

  lemma {:induction false} BitIsPlace(b: Byte, r: nat)
    requires r < 8
    ensures Bit((b >> r) & 1, r) == Place(b, r)
  {
    OneBit(b >> r);
  }

  lemma {:induction false} OneBit(b: Byte)
    ensures (b & 1) == if (b & 1) > 0 then 1 else 0
  {}

  lemma {:induction false} BitsOnto(b: Byte, c: seq<Byte>)
    requires |c| == 8 && forall r :: 0 <= r < 8 ==> c[r] == CodeAt(One, [b], r)
    ensures Bits(c, 8) == b
  {
    hide Bit, Place, OrAll, Bits;
    BitsAll(c);
    PlacesAll(b);
    forall r: nat | r < 8 ensures Bit(c[r], r) == Place(b, r) {
      BitIsPlace(b, r);
    }
  }

  /** A group comes back exactly when its codes are in range. */
  lemma {:induction false} GroupRoundTrip(f: Format, c: seq<Byte>)
    requires |c| == f.Codes()
    ensures UnpackGroup(f, PackGroup(f, c)) == c <==> Below(c, f.Limit())
  {
    var back := UnpackGroup(f, PackGroup(f, c));
    forall r | 0 <= r < f.Codes() ensures back[r] < f.Limit() {
      CodeInRange(f, PackGroup(f, c), r);
    }
    if Below(c, f.Limit()) {
      forall r | 0 <= r < f.Codes() ensures back[r] == c[r] {
        CodeBack(f, c, r);
      }
      assert back == c;
    }
  }

  lemma {:induction false} CodeInRange(f: Format, b: seq<Byte>, r: nat)
    requires |b| == f.Bytes() && r < f.Codes()
    ensures CodeAt(f, b, r) < f.Limit()
  {}

  lemma {:induction false} CodeBack(f: Format, c: seq<Byte>, r: nat)
    requires |c| == f.Codes() && Below(c, f.Limit()) && r < f.Codes()
    ensures CodeAt(f, PackGroup(f, c), r) == c[r]
  {
    match f
    case Four => FourBack(c[0], c[1]);
    case Three => ThreeBack(c, r);
    case One => BitsAt(c, r);
  }

  /** Every group of bytes is the packing of what it unpacks to. */
  lemma {:induction false} GroupOnto(f: Format, b: seq<Byte>)
    requires |b| == f.Bytes()
    ensures PackGroup(f, UnpackGroup(f, b)) == b
  {
    var c := UnpackGroup(f, b);
    assert forall r :: 0 <= r < f.Codes() ==> c[r] == CodeAt(f, b, r);
    match f
    case Four => FourOnto(b[0]);
    case Three => ThreeOnto(b[0], b[1], b[2]);
    case One =>
      assert b == [b[0]];
      BitsOnto(b[0], c);
  }

  lemma {:induction false} FourOnto(b: Byte)
    ensures (b & 0x0F) | (((b >> 4) & 0x0F) << 4) == b
  {}

  // --- Padding --------------------------------------------------------------------------------------------

  /** The groups that n codes fill, the last one perhaps in part. */
  function Groups(f: Format, n: nat): (groups: nat)
    ensures n <= f.CodePos(groups) < n + f.Codes()
  {
    if f.Four? then (n + 1) / 2 else (n + 7) / 8
  }

  /** The codes, followed by zeros up to whole groups. */
  function Padded(f: Format, codes: seq<Byte>): (p: seq<Byte>)
    ensures |p| == f.CodePos(Groups(f, |codes|)) >= |codes|
    ensures p[..|codes|] == codes && forall i :: |codes| <= i < |p| ==> p[i] == 0
  {
    codes + Repeat(0, f.CodePos(Groups(f, |codes|)) - |codes|)
  }

  lemma {:induction false} BelowPadded(f: Format, codes: seq<Byte>)
    ensures Below(Padded(f, codes), f.Limit()) <==> Below(codes, f.Limit())
  {
    var p := Padded(f, codes);
    forall i | 0 <= i < |codes| ensures p[i] == codes[i] {
      assert p[i] == p[..|codes|][i];
    }
  }

  // --- Whole rows -----------------------------------------------------------------------------------------

  function Head(s: seq<Byte>, n: nat): (h: seq<Byte>)
    requires n <= |s|
    ensures |h| == n
  {
    s[..n]
  }

  function Tail(s: seq<Byte>, n: nat): (t: seq<Byte>)
    requires n <= |s|
    ensures |t| == |s| - n
  {
    s[n..]
  }

  function Append(a: seq<Byte>, b: seq<Byte>): (c: seq<Byte>)
    ensures |c| == |a| + |b|
  {
    a + b
  }

  lemma {:induction false} Cut(a: seq<Byte>, b: seq<Byte>)
    ensures Head(Append(a, b), |a|) == a && Tail(Append(a, b), |a|) == b
  {}

  lemma {:induction false} Rejoin(s: seq<Byte>, n: nat)
    requires n <= |s|
    ensures Append(Head(s, n), Tail(s, n)) == s
  {}

  /** The bytes of n groups of codes. */
  function PackGroups(f: Format, codes: seq<Byte>, n: nat): (b: seq<Byte>)
    requires |codes| == f.CodePos(n)
    ensures |b| == f.BytePos(n)
    decreases n
  {
    if n == 0 then []
    else Append(PackGroup(f, Head(codes, f.Codes())), PackGroups(f, Tail(codes, f.Codes()), n - 1))
  }

  /** `pack_nibbles`, `pack_3bit`, `pack_db1` */
  function Packed(f: Format, codes: seq<Byte>): seq<Byte> {
    PackGroups(f, Padded(f, codes), Groups(f, |codes|))
  }

  /** The codes of n groups of bytes. */
  function UnpackGroups(f: Format, b: seq<Byte>, n: nat): (codes: seq<Byte>)
    requires |b| == f.BytePos(n)
    ensures |codes| == f.CodePos(n)
    decreases n
  {
    if n == 0 then []
    else Append(UnpackGroup(f, Head(b, f.Bytes())), UnpackGroups(f, Tail(b, f.Bytes()), n - 1))
  }

  /** `unpack_nibbles`, `unpack_3bit`, `unpack_db1`: only whole groups of bytes can be unpacked. */
  function Unpacked(f: Format, b: seq<Byte>): Option<seq<Byte>> {
    if |b| % f.Bytes() == 0 then Some(UnpackGroups(f, b, |b| / f.Bytes())) else None
  }

  lemma {:induction false} NoGroups(f: Format, codes: seq<Byte>, b: seq<Byte>)
    requires |codes| == f.CodePos(0) && |b| == f.BytePos(0)
    ensures codes == [] && b == [] && PackGroups(f, codes, 0) == [] && UnpackGroups(f, b, 0) == []
    ensures Below(codes, f.Limit())
  {}

  lemma {:induction false} PackStep(f: Format, codes: seq<Byte>, n: nat)
    requires |codes| == f.CodePos(n) && n > 0
    ensures |codes| >= f.Codes() && |Tail(codes, f.Codes())| == f.CodePos(n - 1)
    ensures PackGroups(f, codes, n)
      == Append(PackGroup(f, Head(codes, f.Codes())), PackGroups(f, Tail(codes, f.Codes()), n - 1))
  {
    hide PackGroup, Head, Tail, Append;
  }

  lemma {:induction false} UnpackStep(f: Format, b: seq<Byte>, n: nat)
    requires |b| == f.BytePos(n) && n > 0
    ensures |b| >= f.Bytes() && |Tail(b, f.Bytes())| == f.BytePos(n - 1)
    ensures UnpackGroups(f, b, n)
      == Append(UnpackGroup(f, Head(b, f.Bytes())), UnpackGroups(f, Tail(b, f.Bytes()), n - 1))
  {
    hide UnpackGroup, Head, Tail, Append;
  }

  lemma {:induction false} SplitBelow(f: Format, codes: seq<Byte>)
    requires |codes| >= f.Codes()
    ensures Below(codes, f.Limit())
      <==> Below(Head(codes, f.Codes()), f.Limit()) && Below(Tail(codes, f.Codes()), f.Limit())
  {
    var g := f.Codes();
    assert forall i :: g <= i < |codes| ==> codes[i] == Tail(codes, g)[i - g];
  }

  lemma {:induction false} SameHalves(a: seq<Byte>, b: seq<Byte>, c: seq<Byte>)
    requires |a| <= |c|
    ensures Append(a, b) == c <==> a == Head(c, |a|) && b == Tail(c, |a|)
  {
    Rejoin(c, |a|);
    Cut(a, b);
    hide Append, Head, Tail;
  }

  lemma {:induction false} GroupsRoundTrip(f: Format, codes: seq<Byte>, n: nat)
    requires |codes| == f.CodePos(n)
    ensures UnpackGroups(f, PackGroups(f, codes, n), n) == codes <==> Below(codes, f.Limit())
    decreases n
  {
    hide PackGroup, UnpackGroup, Below, PackGroups, UnpackGroups, Append, Head, Tail, Format.CodePos, Format.BytePos,
      Format.Codes, Format.Bytes;
    if n == 0 {
      NoGroups(f, codes, PackGroups(f, codes, 0));
      return;
    }
    PackStep(f, codes, n);
    var first, rest := Head(codes, f.Codes()), Tail(codes, f.Codes());
    GroupRoundTrip(f, first);
    GroupsRoundTrip(f, rest, n - 1);
    Cut(PackGroup(f, first), PackGroups(f, rest, n - 1));
    UnpackStep(f, PackGroups(f, codes, n), n);
    SplitBelow(f, codes);
    SameHalves(UnpackGroup(f, PackGroup(f, first)), UnpackGroups(f, PackGroups(f, rest, n - 1), n - 1), codes);
  }

  lemma {:induction false} PackedSize(f: Format, codes: seq<Byte>)
    ensures |Packed(f, codes)| % f.Bytes() == 0 && |Packed(f, codes)| / f.Bytes() == Groups(f, |codes|)
  {}

  /** Unpacking returns the packed codes, then zero padding, for any length; and it does so exactly when
      every code is in range. */
  lemma {:induction false} RoundTrip(f: Format, codes: seq<Byte>)
    ensures Unpacked(f, Packed(f, codes)) == Some(Padded(f, codes)) <==> Below(codes, f.Limit())
  {
    PackedSize(f, codes);
    GroupsRoundTrip(f, Padded(f, codes), Groups(f, |codes|));
    BelowPadded(f, codes);
  }

  lemma {:induction false} GroupsOnto(f: Format, b: seq<Byte>, n: nat)
    requires |b| == f.BytePos(n)
    ensures PackGroups(f, UnpackGroups(f, b, n), n) == b
    decreases n
  {
    hide PackGroup, UnpackGroup, PackGroups, UnpackGroups, Append, Head, Tail, Format.CodePos, Format.BytePos,
      Format.Codes, Format.Bytes;
    if n == 0 {
      NoGroups(f, UnpackGroups(f, b, 0), b);
      return;
    }
    UnpackStep(f, b, n);
    var first, rest := Head(b, f.Bytes()), Tail(b, f.Bytes());
    GroupOnto(f, first);
    GroupsOnto(f, rest, n - 1);
    Cut(UnpackGroup(f, first), UnpackGroups(f, rest, n - 1));
    PackStep(f, UnpackGroups(f, b, n), n);
    Rejoin(b, f.Bytes());
  }

  /** Packing is onto whole groups: such a byte string is the packing of what it unpacks to. */
  lemma {:induction false} Onto(f: Format, b: seq<Byte>)
    requires |b| % f.Bytes() == 0
    ensures Unpacked(f, b).Some? && Packed(f, Unpacked(f, b).value) == b
  {
    var n := |b| / f.Bytes();
    GroupsOnto(f, b, n);
    hide PackGroups, UnpackGroups;
    NoPadding(f, UnpackGroups(f, b, n), n);
  }

  lemma {:induction false} NoPadding(f: Format, codes: seq<Byte>, n: nat)
    requires |codes| == f.CodePos(n)
    ensures Groups(f, |codes|) == n && Padded(f, codes) == codes
  {}

  // --- The 3-bit group is a number ------------------------------------------------------------------------

  /** Eight digits in base 8, lowest first. */
  function Octal(c: seq<Byte>): bv24
    requires |c| == 8
  {
    Digits(c[0], c[1], c[2], c[3], c[4], c[5], c[6], c[7])
  }

  function Digits(c0: Byte, c1: Byte, c2: Byte, c3: Byte, c4: Byte, c5: Byte, c6: Byte, c7: Byte): bv24 {
    Wide(c0) + 8 * (Wide(c1) + 8 * (Wide(c2) + 8 * (Wide(c3)
      + 8 * (Wide(c4) + 8 * (Wide(c5) + 8 * (Wide(c6) + 8 * Wide(c7)))))))
  }

  function Wide(b: Byte): bv24 {
    b as bv24
  }

  /** Three bytes, lowest first. */
  function Number(b0: Byte, b1: Byte, b2: Byte): bv24 {
    Wide(b0) + 256 * (Wide(b1) + 256 * Wide(b2))
  }

  lemma {:induction false} DigitsAreBytes(c0: Byte, c1: Byte, c2: Byte, c3: Byte, c4: Byte, c5: Byte, c6: Byte,
                                          c7: Byte)
    requires c0 < 8 && c1 < 8 && c2 < 8 && c3 < 8 && c4 < 8 && c5 < 8 && c6 < 8 && c7 < 8
    ensures Number(LowByte(c0, c1, c2), MidByte(c2, c3, c4, c5), HighByte(c5, c6, c7))
      == Digits(c0, c1, c2, c3, c4, c5, c6, c7)
  {}

  /** The three bytes of a 3-bit group are the bytes, lowest first, of the number whose base-8 digits are
      the codes, lowest first. */
  lemma {:induction false} ThreeIsOctal(c: seq<Byte>)
    requires |c| == 8 && Below(c, 8)
    ensures var b := PackGroup(Three, c); Number(b[0], b[1], b[2]) == Octal(c)
  {
    hide Digits, Number, LowByte, MidByte, HighByte;
    DigitsAreBytes(c[0], c[1], c[2], c[3], c[4], c[5], c[6], c[7]);
  }

  /** The byte of a 4-bit group is the number whose base-16 digits are the codes, lowest first, and that of a 1-bit
      group the number whose bits are. */
  lemma {:induction false} FourIsHex(c: seq<Byte>)
    requires |c| == 2 && Below(c, 16)
    ensures PackGroup(Four, c) == [c[0] + 16 * c[1]]
  {
    HexDigits(c[0], c[1]);
  }

  lemma {:induction false} HexDigits(c0: Byte, c1: Byte)
    requires c0 < 16 && c1 < 16
    ensures c0 | (c1 << 4) == c0 + 16 * c1
  {}

  lemma {:induction false} OneIsBinary(c: seq<Byte>)
    requires |c| == 8 && Below(c, 2)
    ensures PackGroup(One, c)
      == [c[0] + 2 * c[1] + 4 * c[2] + 8 * c[3] + 16 * c[4] + 32 * c[5] + 64 * c[6] + 128 * c[7]]
  {
    forall i | 0 <= i < 8 ensures c[i] < 2 {}
  }

  // --- The loops ------------------------------------------------------------------------------------------

  function ByteGroup(f: Format, b: seq<Byte>, k: nat): (g: seq<Byte>)
    requires f.BytePos(k) + f.Bytes() <= |b|
    ensures |g| == f.Bytes()
  {
    b[f.BytePos(k)..f.BytePos(k) + f.Bytes()]
  }

  /** Code r of group k is in its place. */
  ghost predicate IsCode(codes: seq<Byte>, f: Format, b: seq<Byte>, k: nat, r: nat) {
    && f.BytePos(k) + f.Bytes() <= |b| && r < f.Codes() && f.CodePos(k) + r < |codes|
    && codes[f.CodePos(k) + r] == CodeAt(f, ByteGroup(f, b, k), r)
  }

  lemma {:induction false} FirstCode(f: Format, b: seq<Byte>, r: nat, rest: seq<Byte>)
    requires f.Bytes() <= |b| && r < f.Codes()
    ensures IsCode(Append(UnpackGroup(f, Head(b, f.Bytes())), rest), f, b, 0, r)
  {
    var first := Head(b, f.Bytes());
    assert UnpackGroup(f, first)[r] == CodeAt(f, first, r);
    assert ByteGroup(f, b, 0) == first;
    hide CodeAt, UnpackGroup;
  }

  lemma {:induction false} LaterCode(f: Format, b: seq<Byte>, k: nat, r: nat, first: seq<Byte>, rest: seq<Byte>)
    requires f.Bytes() <= |b| && k > 0 && |first| == f.Codes()
    requires IsCode(rest, f, Tail(b, f.Bytes()), k - 1, r)
    ensures IsCode(Append(first, rest), f, b, k, r)
  {
    ShiftSlice(b, f.Bytes(), f.BytePos(k - 1));
    hide CodeAt;
    LaterAt(first, rest, f.CodePos(k - 1) + r);
  }

  lemma {:induction false} ShiftSlice(b: seq<Byte>, h: nat, at: nat)
    requires h + at + h <= |b|
    ensures Tail(b, h)[at..at + h] == b[at + h..at + h + h]
  {
    var x, y := Tail(b, h)[at..at + h], b[at + h..at + h + h];
    assert |x| == |y| && forall i :: 0 <= i < |x| ==> x[i] == y[i];
  }

  lemma {:induction false} LaterAt(a: seq<Byte>, b: seq<Byte>, at: nat)
    requires at < |b|
    ensures Append(a, b)[at + |a|] == b[at]
  {}

  lemma {:induction false} UnpackedAt(f: Format, b: seq<Byte>, n: nat, k: nat, r: nat)
    requires |b| == f.BytePos(n) && k < n && r < f.Codes()
    ensures IsCode(UnpackGroups(f, b, n), f, b, k, r)
    decreases k
  {
    hide UnpackGroup, UnpackGroups, Append, Head, Tail, IsCode, CodeAt, Format.CodePos, Format.BytePos, Format.Codes,
      Format.Bytes;
    UnpackStep(f, b, n);
    var first, rest := UnpackGroup(f, Head(b, f.Bytes())), UnpackGroups(f, Tail(b, f.Bytes()), n - 1);
    if k == 0 {
      FirstCode(f, b, r, rest);
    } else {
      UnpackedAt(f, Tail(b, f.Bytes()), n - 1, k - 1, r);
      LaterCode(f, b, k, r, first, rest);
    }
  }

  /** `out[r::g] = ...` */
  method FillColumn(out: array<Byte>, f: Format, b: seq<Byte>, r: nat, groups: nat)
    requires |b| == f.BytePos(groups) && out.Length == f.CodePos(groups) && r < f.Codes()
    requires forall k, q :: 0 <= k < groups && 0 <= q < r ==> IsCode(out[..], f, b, k, q)
    modifies out
    ensures forall k, q :: 0 <= k < groups && 0 <= q < r + 1 ==> IsCode(out[..], f, b, k, q)
  {
    var j := 0;
    while j < groups
      invariant j <= groups
      invariant forall k, q :: 0 <= k < groups && 0 <= q < r ==> IsCode(out[..], f, b, k, q)
      invariant forall k :: 0 <= k < j ==> IsCode(out[..], f, b, k, r)
    {
      ghost var before := out[..];
      out[f.CodePos(j) + r] := CodeAt(f, ByteGroup(f, b, j), r);
      assert out[..] == before[f.CodePos(j) + r := CodeAt(f, ByteGroup(f, b, j), r)];
      FillStep(before, out[..], f, b, j, r, groups);
      j := j + 1;
    }
  }

  lemma {:induction false} FillStep(before: seq<Byte>, after: seq<Byte>, f: Format, b: seq<Byte>, j: nat, r: nat,
                                    groups: nat)
    requires j < groups && |b| == f.BytePos(groups) && |before| == f.CodePos(groups) && r < f.Codes()
    requires after == before[f.CodePos(j) + r := CodeAt(f, ByteGroup(f, b, j), r)]
    ensures forall k, q :: IsCode(before, f, b, k, q) ==> IsCode(after, f, b, k, q)
    ensures IsCode(after, f, b, j, r)
  {
    hide CodeAt, ByteGroup;
  }

  /** `unpack_nibbles`, `unpack_3bit`, `unpack_db1`: bytes that are not whole groups are refused. */
  method Unpack(f: Format, b: seq<Byte>) returns (codes: Option<seq<Byte>>)
    ensures codes == Unpacked(f, b)
  {
    if |b| % f.Bytes() != 0 {
      return None;
    }
    var groups := |b| / f.Bytes();
    var out := new Byte[f.CodePos(groups)](_ => 0);
    var r := 0;
    while r < f.Codes()
      invariant r <= f.Codes()
      invariant forall k, q :: 0 <= k < groups && 0 <= q < r ==> IsCode(out[..], f, b, k, q)
    {
      FillColumn(out, f, b, r, groups);
      r := r + 1;
    }
    AllCodes(out[..], f, b, groups);
    codes := Some(out[..]);
  }

  lemma {:induction false} AllCodes(out: seq<Byte>, f: Format, b: seq<Byte>, groups: nat)
    requires |b| == f.BytePos(groups) && |out| == f.CodePos(groups)
    requires forall k, q :: 0 <= k < groups && 0 <= q < f.Codes() ==> IsCode(out, f, b, k, q)
    ensures out == UnpackGroups(f, b, groups)
  {
    hide CodeAt, UnpackGroups, ByteGroup;
    forall i | 0 <= i < |out| ensures out[i] == UnpackGroups(f, b, groups)[i] {
      var k, r := if f.Four? then i / 2 else i / 8, if f.Four? then i % 2 else i % 8;
      assert IsCode(out, f, b, k, r);
      UnpackedAt(f, b, groups, k, r);
    }
  }

  /** `bits > 0` */
  function SignCodes(values: seq<real>): (codes: seq<Byte>)
    ensures |codes| == |values| && Below(codes, 2)
    ensures forall i :: 0 <= i < |values| ==> codes[i] == if values[i] > 0.0 then 1 else 0
    decreases |values|
  {
    if values == [] then []
    else SignCodes(values[..|values| - 1]) + [if values[|values| - 1] > 0.0 then 1 else 0]
  }

  function CodeGroup(codes: seq<Byte>, k: nat): (c: seq<Byte>)
    requires 8 * k + 8 <= |codes|
    ensures |c| == 8 && forall i {:trigger c[i]} :: 0 <= i < 8 ==> c[i] == codes[8 * k + i]
  {
    codes[8 * k..8 * k + 8]
  }

  /** Byte k holds the first i signs of group k. */
  ghost predicate HasBits(b: seq<Byte>, codes: seq<Byte>, k: nat, i: nat) {
    i <= 8 && k < |b| && 8 * k + 8 <= |codes| && b[k] == Bits(CodeGroup(codes, k), i)
  }

  ghost predicate AllHaveBits(b: seq<Byte>, codes: seq<Byte>, i: nat) {
    forall k :: 0 <= k < |b| ==> HasBits(b, codes, k, i)
  }

  /** `byte = byte | (b[..., i] << i)` */
  method OrColumn(bytes: array<Byte>, codes: seq<Byte>, i: nat)
    requires i < 8 && |codes| == 8 * bytes.Length && Below(codes, 2)
    requires AllHaveBits(bytes[..], codes, i)
    modifies bytes
    ensures AllHaveBits(bytes[..], codes, i + 1)
  {
    var next := i + 1;
    var k := 0;
    while k < bytes.Length
      invariant 0 <= k <= bytes.Length
      invariant forall j :: 0 <= j < k ==> HasBits(bytes[..], codes, j, next)
      invariant forall j :: k <= j < bytes.Length ==> HasBits(bytes[..], codes, j, i)
    {
      ghost var before := bytes[..];
      assert HasBits(before, codes, k, i);
      bytes[k] := bytes[k] | (codes[8 * k + i] << i);
      assert bytes[..] == before[k := before[k] | (codes[8 * k + i] << i)];
      OrStep(before, bytes[..], codes, k, i);
      k := k + 1;
    }
  }

  lemma {:induction false} OrStep(before: seq<Byte>, after: seq<Byte>, codes: seq<Byte>, k: nat, i: nat)
    requires i < 8 && HasBits(before, codes, k, i) && Below(codes, 2)
    requires after == before[k := before[k] | (codes[8 * k + i] << i)]
    ensures HasBits(after, codes, k, i + 1)
    ensures forall j, n :: j != k && HasBits(before, codes, j, n) ==> HasBits(after, codes, j, n)
  {
    NextBits(codes, k, i);
    OtherBytes(before, after, codes, k);
    hide Bits, CodeGroup;
  }

  lemma {:induction false} NextBits(codes: seq<Byte>, k: nat, i: nat)
    requires i < 8 && 8 * k + 8 <= |codes| && Below(codes, 2)
    ensures Bits(CodeGroup(codes, k), i + 1) == Bits(CodeGroup(codes, k), i) | (codes[8 * k + i] << i)
  {
    var c := CodeGroup(codes, k);
    assert c[i] == codes[8 * k + i] < 2;
    SmallBit(c[i], i);
    BitsNext(c, i);
    hide Bits, Bit, CodeGroup;
  }

  lemma {:induction false} BitsNext(c: seq<Byte>, n: nat)
    requires |c| == 8 && n < 8
    ensures Bits(c, n + 1) == Bits(c, n) | Bit(c[n], n)
  {}

  lemma {:induction false} OtherBytes(before: seq<Byte>, after: seq<Byte>, codes: seq<Byte>, k: nat)
    requires |after| == |before| && forall j :: 0 <= j < |before| && j != k ==> after[j] == before[j]
    ensures forall j, n :: j != k && HasBits(before, codes, j, n) ==> HasBits(after, codes, j, n)
  {
    hide Bits, CodeGroup;
  }

  lemma {:induction false} SmallBit(c: Byte, i: nat)
    requires c < 2 && i < 8
    ensures Bit(c, i) == c << i
  {
    assert c == 0 || c == 1;
  }

  /** `pack_db1`: one pass over the bytes for each bit. */
  method PackSigns(values: seq<real>) returns (b: seq<Byte>)
    ensures b == Packed(One, SignCodes(values))
  {
    hide Bits, PackGroups, SignCodes;
    var codes := Padded(One, SignCodes(values));
    BelowPadded(One, SignCodes(values));
    var groups := Groups(One, |values|);
    var bytes := new Byte[groups](_ => 0);
    NoBits(bytes[..], codes);
    var i := 0;
    while i < 8
      invariant i <= 8 && AllHaveBits(bytes[..], codes, i)
    {
      OrColumn(bytes, codes, i);
      i := i + 1;
    }
    b := bytes[..];
    AllBits(b, codes, groups);
  }

  lemma {:induction false} NoBits(b: seq<Byte>, codes: seq<Byte>)
    requires |codes| == 8 * |b| && forall k :: 0 <= k < |b| ==> b[k] == 0
    ensures AllHaveBits(b, codes, 0)
  {}

  lemma {:induction false} AllBits(b: seq<Byte>, codes: seq<Byte>, n: nat)
    requires |b| == n && |codes| == 8 * n && AllHaveBits(b, codes, 8)
    ensures b == PackGroups(One, codes, n)
  {
    hide Bits, PackGroups, CodeGroup;
    forall k | 0 <= k < n ensures b[k] == PackGroups(One, codes, n)[k] {
      assert HasBits(b, codes, k, 8);
      PackedAt(codes, n, k);
    }
  }

  lemma {:induction false} PackedAt(codes: seq<Byte>, n: nat, k: nat)
    requires |codes| == 8 * n && k < n
    ensures HasBits(PackGroups(One, codes, n), codes, k, 8)
    decreases k
  {
    hide Bits, PackGroup, PackGroups, Append, Head, Tail, HasBits;
    PackStep(One, codes, n);
    var first, rest := PackGroup(One, Head(codes, 8)), PackGroups(One, Tail(codes, 8), n - 1);
    if k == 0 {
      FirstByte(codes, rest);
    } else {
      PackedAt(Tail(codes, 8), n - 1, k - 1);
      LaterByte(codes, k, first, rest);
    }
  }

  lemma {:induction false} FirstByte(codes: seq<Byte>, rest: seq<Byte>)
    requires |codes| >= 8
    ensures HasBits(Append(PackGroup(One, Head(codes, 8)), rest), codes, 0, 8)
  {
    assert PackGroup(One, Head(codes, 8)) == [Bits(Head(codes, 8), 8)];
    assert CodeGroup(codes, 0) == Head(codes, 8);
    hide Bits, PackGroup;
  }

  lemma {:induction false} LaterByte(codes: seq<Byte>, k: nat, first: seq<Byte>, rest: seq<Byte>)
    requires |codes| >= 8 && k > 0 && |first| == 1 && HasBits(rest, Tail(codes, 8), k - 1, 8)
    ensures HasBits(Append(first, rest), codes, k, 8)
  {
    hide Bits;
    ShiftSlice(codes, 8, 8 * (k - 1));
    LaterAt(first, rest, k - 1);
  }
}
