/** Flat byte memory, shared by the CPU and the DMA engine. */
module Memory {
  type Byte = bv8
  type Mem = seq<Byte>

  /** A physically contiguous piece of memory. */
  datatype Region = Region(addr: nat, len: nat)

  ghost predicate Inside(m: Mem, r: Region) {
    r.addr + r.len <= |m|
  }

  ghost predicate Disjoint(r: Region, s: Region) {
    r.addr + r.len <= s.addr || s.addr + s.len <= r.addr || r.len == 0 || s.len == 0
  }

  function Read(m: Mem, r: Region): (d: seq<Byte>)
    requires Inside(m, r)
    ensures |d| == r.len
  {
    m[r.addr..r.addr + r.len]
  }

  function Write(m: Mem, addr: nat, d: seq<Byte>): (m': Mem)
    requires addr + |d| <= |m|
    ensures |m'| == |m|
    ensures Read(m', Region(addr, |d|)) == d
    ensures forall x | 0 <= x < |m| && !(addr <= x < addr + |d|) :: m'[x] == m[x]
  {
    m[..addr] + d + m[addr + |d|..]
  }

  lemma {:induction false} ReadOutside(m: Mem, addr: nat, d: seq<Byte>, r: Region)
    requires addr + |d| <= |m| && Inside(m, r) && Disjoint(Region(addr, |d|), r)
    ensures Read(Write(m, addr, d), r) == Read(m, r)
  {
  }

  lemma {:induction false} WriteCommutes(m: Mem, a: nat, d: seq<Byte>, b: nat, e: seq<Byte>)
    requires a + |d| <= |m| && b + |e| <= |m|
    requires Disjoint(Region(a, |d|), Region(b, |e|))
    ensures Write(Write(m, a, d), b, e) == Write(Write(m, b, e), a, d)
  {
    var x, y := Write(Write(m, a, d), b, e), Write(Write(m, b, e), a, d);
    forall i | 0 <= i < |m| ensures x[i] == y[i] {
      if a <= i < a + |d| {
        assert Write(m, a, d)[i] == Read(Write(m, a, d), Region(a, |d|))[i - a];
        assert y[i] == Read(y, Region(a, |d|))[i - a];
      } else if b <= i < b + |e| {
        assert Write(m, b, e)[i] == Read(Write(m, b, e), Region(b, |e|))[i - b];
        assert x[i] == Read(x, Region(b, |e|))[i - b];
      }
    }
  }

  /** Two adjacent writes are one. */
  lemma {:induction false} WriteAdjacent(m: Mem, a: nat, d: seq<Byte>, e: seq<Byte>)
    requires a + |d| + |e| <= |m|
    ensures Write(Write(m, a, d), a + |d|, e) == Write(m, a, d + e)
  {
  }

  function Length(rs: seq<Region>): nat {
    if rs == [] then 0 else rs[0].len + Length(rs[1..])
  }

  ghost predicate AllInside(size: nat, rs: seq<Region>) {
    rs == [] || (rs[0].addr + rs[0].len <= size && AllInside(size, rs[1..]))
  }

  /** No region of the list touches `r`. */
  ghost predicate AllDisjoint(rs: seq<Region>, r: Region) {
    rs == [] || (Disjoint(rs[0], r) && AllDisjoint(rs[1..], r))
  }

  /** What a device reads that walks a region list. */
  function Gather(m: Mem, rs: seq<Region>): (d: seq<Byte>)
    requires AllInside(|m|, rs)
    ensures |d| == Length(rs)
  {
    if rs == [] then [] else Read(m, rs[0]) + Gather(m, rs[1..])
  }

  /** The memory after a device has delivered `d` through a region list. */
  function Scatter(m: Mem, rs: seq<Region>, d: seq<Byte>): (m': Mem)
    requires AllInside(|m|, rs) && |d| == Length(rs)
    ensures |m'| == |m|
    decreases |rs|
  {
    if rs == [] then m
    else Scatter(Write(m, rs[0].addr, d[..rs[0].len]), rs[1..], d[rs[0].len..])
  }

  lemma {:induction false} LengthAppend(xs: seq<Region>, ys: seq<Region>)
    ensures Length(xs + ys) == Length(xs) + Length(ys)
  {
    if xs == [] {
      assert xs + ys == ys;
    } else {
      assert (xs + ys)[1..] == xs[1..] + ys;
      LengthAppend(xs[1..], ys);
    }
  }

  lemma {:induction false} InsideAppend(size: nat, xs: seq<Region>, ys: seq<Region>)
    requires AllInside(size, xs) && AllInside(size, ys)
    ensures AllInside(size, xs + ys)
  {
    if xs == [] {
      assert xs + ys == ys;
    } else {
      assert (xs + ys)[1..] == xs[1..] + ys;
      InsideAppend(size, xs[1..], ys);
    }
  }

  lemma {:induction false} GatherAppend(m: Mem, xs: seq<Region>, ys: seq<Region>)
    requires AllInside(|m|, xs) && AllInside(|m|, ys)
    ensures AllInside(|m|, xs + ys)
    ensures Gather(m, xs + ys) == Gather(m, xs) + Gather(m, ys)
  {
    if xs == [] {
      assert xs + ys == ys;
    } else {
      assert (xs + ys)[1..] == xs[1..] + ys;
      GatherAppend(m, xs[1..], ys);
    }
  }

  lemma {:induction false} ScatterAppend(m: Mem, xs: seq<Region>, ys: seq<Region>, d: seq<Byte>, e: seq<Byte>)
    requires AllInside(|m|, xs) && AllInside(|m|, ys) && |d| == Length(xs) && |e| == Length(ys)
    ensures AllInside(|m|, xs + ys) && Length(xs + ys) == |d + e|
    ensures Scatter(m, xs + ys, d + e) == Scatter(Scatter(m, xs, d), ys, e)
    decreases |xs|
  {
    LengthAppend(xs, ys);
    if xs == [] {
      assert xs + ys == ys;
      assert d + e == e;
    } else {
      var n := xs[0].len;
      assert (xs + ys)[1..] == xs[1..] + ys;
      assert (d + e)[..n] == d[..n];
      assert (d + e)[n..] == d[n..] + e;
      ScatterAppend(Write(m, xs[0].addr, d[..n]), xs[1..], ys, d[n..], e);
    }
  }

  /** Nothing outside the regions changes. */
  lemma {:induction false} ScatterFrame(m: Mem, rs: seq<Region>, d: seq<Byte>, r: Region)
    requires AllInside(|m|, rs) && |d| == Length(rs) && Inside(m, r)
    requires AllDisjoint(rs, r)
    ensures Read(Scatter(m, rs, d), r) == Read(m, r)
    decreases |rs|
  {
    if rs == [] {
    } else {
      ReadOutside(m, rs[0].addr, d[..rs[0].len], r);
      ScatterFrame(Write(m, rs[0].addr, d[..rs[0].len]), rs[1..], d[rs[0].len..], r);
    }
  }

  /** A write to an unrelated place may be done before or after the delivery. */
  lemma {:induction false} ScatterCommutes(m: Mem, a: nat, e: seq<Byte>, rs: seq<Region>, d: seq<Byte>)
    requires AllInside(|m|, rs) && |d| == Length(rs) && a + |e| <= |m|
    requires AllDisjoint(rs, Region(a, |e|))
    ensures Scatter(Write(m, a, e), rs, d) == Write(Scatter(m, rs, d), a, e)
    decreases |rs|
  {
    if rs == [] {
    } else {
      var n := rs[0].len;
      WriteCommutes(m, a, e, rs[0].addr, d[..n]);
      ScatterCommutes(Write(m, rs[0].addr, d[..n]), a, e, rs[1..], d[n..]);
    }
  }

  /** Equal size and equal contents except inside `r`. */
  ghost predicate SameOutside(r: Region, m: Mem, m': Mem) {
    |m| == |m'| && forall x | 0 <= x < |m| && !(r.addr <= x < r.addr + r.len) :: m[x] == m'[x]
  }

  lemma {:induction false} WriteWithin(r: Region, m: Mem, a: nat, e: seq<Byte>)
    requires a + |e| <= |m| && r.addr <= a && a + |e| <= r.addr + r.len
    ensures SameOutside(r, m, Write(m, a, e))
  {
  }

  lemma {:induction false} SameOutsideTrans(r: Region, s: Region, m1: Mem, m2: Mem, m3: Mem)
    requires SameOutside(r, m1, m2) && SameOutside(s, m2, m3)
    requires r.addr <= s.addr && s.addr + s.len <= r.addr + r.len
    ensures SameOutside(r, m1, m3)
  {
  }

  lemma {:induction false} ScatterSame(r: Region, m: Mem, m': Mem, rs: seq<Region>, d: seq<Byte>)
    requires AllInside(|m|, rs) && |d| == Length(rs) && SameOutside(r, m, m')
    ensures SameOutside(r, Scatter(m, rs, d), Scatter(m', rs, d))
    decreases |rs|
  {
    if rs == [] {
    } else {
      var a, e := rs[0].addr, d[..rs[0].len];
      assert SameOutside(r, Write(m, a, e), Write(m', a, e)) by {
        WriteSame(r, m, m', a, e);
      }
      ScatterSame(r, Write(m, a, e), Write(m', a, e), rs[1..], d[rs[0].len..]);
    }
  }

  lemma {:induction false} WriteSame(r: Region, m: Mem, m': Mem, a: nat, e: seq<Byte>)
    requires a + |e| <= |m| && SameOutside(r, m, m')
    ensures SameOutside(r, Write(m, a, e), Write(m', a, e))
  {
    var w, w' := Write(m, a, e), Write(m', a, e);
    forall x | 0 <= x < |m| && !(r.addr <= x < r.addr + r.len) ensures w[x] == w'[x] {
      if a <= x < a + |e| {
        assert w[x] == Read(w, Region(a, |e|))[x - a];
        assert w'[x] == Read(w', Region(a, |e|))[x - a];
      }
    }
  }

  /** No two regions of the list overlap. */
  ghost predicate Apart(rs: seq<Region>) {
    rs == [] || (AllDisjoint(rs[1..], rs[0]) && Apart(rs[1..]))
  }

  /** Each of several disjoint regions receives its own slice of the data. */
  lemma {:induction false} ScatterSlice(m: Mem, rs: seq<Region>, d: seq<Byte>, i: nat)
    requires AllInside(|m|, rs) && |d| == Length(rs) && Apart(rs) && i < |rs|
    ensures Inside(m, rs[i]) && Length(rs[..i]) + rs[i].len <= |d|
    ensures Read(Scatter(m, rs, d), rs[i]) == d[Length(rs[..i])..Length(rs[..i]) + rs[i].len]
    decreases |rs|
  {
    var n := rs[0].len;
    var m1 := Write(m, rs[0].addr, d[..n]);
    if i == 0 {
      assert rs[..0] == [];
      ScatterFrame(m1, rs[1..], d[n..], rs[0]);
    } else {
      var k := Length(rs[1..][..i - 1]);
      ScatterSlice(m1, rs[1..], d[n..], i - 1);
      LengthBefore(rs, i);
      SliceLater(d, n, k, rs[i].len);
    }
  }

  lemma {:induction false} LengthBefore(rs: seq<Region>, i: nat)
    requires 0 < i < |rs|
    ensures Length(rs[..i]) == rs[0].len + Length(rs[1..][..i - 1])
  {
    assert rs[..i][1..] == rs[1..][..i - 1];
  }

  lemma {:induction false} SliceLater(d: seq<Byte>, n: nat, k: nat, len: nat)
    requires n + k + len <= |d|
    ensures d[n..][k..k + len] == d[n + k..n + k + len]
  {
  }
}
