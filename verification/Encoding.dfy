/** Little-endian numbers, as `struct` and NumPy's "<u4" write them. */
module Encoding {
  import opened Layout

  function Range256(w: nat): (n: nat)
    ensures n >= 1
    decreases w
  {
    if w == 0 then 1 else 256 * Range256(w - 1)
  }

  /** The w low bytes of n, lowest first. */
  function Enc(n: nat, w: nat): (b: Bytes)
    ensures |b| == w
    decreases w
  {
    if w == 0 then [] else [n % 256] + Enc(n / 256, w - 1)
  }

  function Dec(b: Bytes): (n: nat)
    ensures n < Range256(|b|)
    decreases |b|
  {
    if b == [] then 0 else b[0] + 256 * Dec(b[1..])
  }

  lemma {:induction false} DecEnc(n: nat, w: nat)
    requires n < Range256(w)
    ensures Dec(Enc(n, w)) == n
    decreases w
  {
    if w == 0 {
    } else {
      DecEnc(n / 256, w - 1);
      assert Enc(n, w)[1..] == Enc(n / 256, w - 1);
    }
  }

  lemma {:induction false} LowByte(low: nat, high: nat)
    requires low < 256
    ensures (low + 256 * high) % 256 == low && (low + 256 * high) / 256 == high
  {}

  lemma {:induction false} EncLow(n: nat, w: nat)
    requires w > 0
    ensures Enc(n, w) == [n % 256] + Enc(n / 256, w - 1)
  {}

  lemma {:induction false} EncDec(b: Bytes)
    ensures Enc(Dec(b), |b|) == b
    decreases |b|
  {
    if b == [] {
    } else {
      EncDec(b[1..]);
      LowByte(b[0], Dec(b[1..]));
      EncLow(Dec(b), |b|);
      hide Enc;
      assert Dec(b) == b[0] + 256 * Dec(b[1..]);
      assert b == [b[0]] + b[1..];
    }
  }

  /** The number four bytes stand for. */
  function Little(data: Bytes, at: nat): (n: nat)
    requires at + 4 <= |data|
  {
    Digits256(data[at], data[at + 1], data[at + 2], data[at + 3])
  }

  function Digits256(b0: nat, b1: nat, b2: nat, b3: nat): nat {
    b0 + 0x100 * b1 + 0x1_0000 * b2 + 0x100_0000 * b3
  }

  lemma {:induction false} LittleIn(data: Bytes, at: nat, part: Bytes, k: nat)
    requires at + |part| <= |data| && data[at..at + |part|] == part && k + 4 <= |part|
    ensures Little(data, at + k) == Little(part, k)
  {
    assert forall i :: 0 <= i < |part| ==> part[i] == data[at..at + |part|][i] == data[at + i];
    assert part[k] == data[at + k] && part[k + 1] == data[at + (k + 1)];
    assert part[k + 2] == data[at + (k + 2)] && part[k + 3] == data[at + (k + 3)];
  }

  lemma {:induction false} DecNext(b: Bytes)
    requires b != []
    ensures Dec(b) == b[0] + 256 * Dec(b[1..])
  {}

  lemma {:induction false} DecFour(b: Bytes)
    requires |b| == 4
    ensures Dec(b) == Little(b, 0)
  {
    hide Dec;
    DecNext(b);
    DecNext(b[1..]);
    DecNext(b[2..]);
    DecNext(b[3..]);
    assert b[1..][1..] == b[2..] && b[2..][1..] == b[3..] && b[3..][1..] == [];
    assert Dec([]) == 0 by {
      DecNone();
    }
  }

  lemma {:induction false} DecEight(b: Bytes)
    requires |b| == 8
    ensures Dec(b) == Little(b, 0) + U32 * Little(b, 4)
  {
    var high := b[4..];
    DecFour(high);
    hide Dec;
    DecNext(b);
    DecNext(b[1..]);
    DecNext(b[2..]);
    DecNext(b[3..]);
    assert b[1..][1..] == b[2..] && b[2..][1..] == b[3..] && b[3..][1..] == high;
  }

  lemma {:induction false} DecNone()
    ensures Dec([]) == 0
  {}

  /** `data[lo:hi]` */
  function Window(data: Bytes, lo: nat, hi: nat): (w: Bytes)
    requires lo <= hi <= |data|
    ensures |w| == hi - lo
  {
    data[lo..hi]
  }

  /** Three consecutive windows. */
  lemma {:induction false} CutWindows(data: Bytes, pos: nat, a: Bytes, b: Bytes, c: Bytes)
    requires pos <= |data| && Window(data, pos, |data|) == a + b + c
    ensures pos + |a| + |b| <= |data|
    ensures Window(data, pos, pos + |a|) == a
    ensures Window(data, pos + |a|, pos + |a| + |b|) == b
    ensures Window(data, pos + |a| + |b|, |data|) == c
  {
    var tail := a + b + c;
    assert tail == data[pos..|data|] == data[pos..];
    assert data[pos..pos + |a|] == tail[..|a|];
    assert data[pos + |a|..pos + |a| + |b|] == tail[|a|..|a| + |b|];
    assert data[pos + |a| + |b|..] == tail[|a| + |b|..];
  }

  lemma {:induction false} JoinWindows(data: Bytes, pos: nat, mid: nat, next: nat)
    requires pos <= mid <= next <= |data|
    ensures Window(data, pos, |data|) == Window(data, pos, mid) + Window(data, mid, next) + Window(data, next, |data|)
  {}

  const U32: nat := 0x1_0000_0000

  type u32 = n: int | 0 <= n < U32

  lemma {:induction false} FourBytes()
    ensures Range256(4) == U32
  {
    assert Range256(2) == 65536;
  }

  /** `np.frombuffer(data, "<u4")` on whole numbers. */
  function Ids(b: Bytes): (ids: seq<u32>)
    requires |b| % 4 == 0
    ensures |ids| * 4 == |b|
    decreases |b|
  {
    FourBytes();
    if b == [] then [] else [Dec(b[..4])] + Ids(b[4..])
  }

  /** `array.tobytes()` of an array of "<u4". */
  function IdBytes(ids: seq<u32>): (b: Bytes)
    ensures |b| == 4 * |ids|
    decreases |ids|
  {
    if ids == [] then [] else Enc(ids[0], 4) + IdBytes(ids[1..])
  }

  lemma {:induction false} IdsOfBytes(ids: seq<u32>)
    ensures Ids(IdBytes(ids)) == ids
    decreases |ids|
  {
    if ids == [] {
    } else {
      IdsOfBytes(ids[1..]);
      FourBytes();
      DecEnc(ids[0], 4);
      hide Enc, Dec, Range256;
      var b := IdBytes(ids);
      assert b[..4] == Enc(ids[0], 4) && b[4..] == IdBytes(ids[1..]);
      assert ids == [ids[0]] + ids[1..];
    }
  }

  lemma {:induction false} IdBytesNext(ids: seq<u32>)
    requires ids != []
    ensures IdBytes(ids)[0..4] == Enc(ids[0], 4) && IdBytes(ids)[4..4 + 4 * |ids[1..]|] == IdBytes(ids[1..])
  {
    hide Enc;
    var first, rest := Enc(ids[0], 4), IdBytes(ids[1..]);
    assert IdBytes(ids) == first + rest;
    assert (first + rest)[0..4] == first && (first + rest)[4..4 + |rest|] == rest;
  }

  /** Number t of an id array stands in its bytes at 4 t. */
  lemma {:induction false} IdBytesAt(ids: seq<u32>, t: nat)
    requires t < |ids|
    ensures Little(IdBytes(ids), 4 * t) == ids[t]
    decreases t
  {
    hide Enc, Dec, Range256, Little, IdBytes;
    IdBytesNext(ids);
    if t == 0 {
      FourBytes();
      DecEnc(ids[0], 4);
      DecFour(Enc(ids[0], 4));
      LittleIn(IdBytes(ids), 0, Enc(ids[0], 4), 0);
    } else {
      IdBytesAt(ids[1..], t - 1);
      LittleIn(IdBytes(ids), 4, IdBytes(ids[1..]), 4 * (t - 1));
    }
  }

  lemma {:induction false} BytesOfIds(b: Bytes)
    requires |b| % 4 == 0
    ensures IdBytes(Ids(b)) == b
    decreases |b|
  {
    if b == [] {
    } else {
      BytesOfIds(b[4..]);
      EncDec(b[..4]);
      hide Enc, Dec, Range256;
      var ids := Ids(b);
      assert ids[1..] == Ids(b[4..]);
      assert b == b[..4] + b[4..];
    }
  }
}
