/** The reference-counted cache of DMA mappings: two maps that must stay inverse to each
    other, against a multiset of the mappings in use. */
module DmaCache {
  import opened Mmc

  /** A region of a dataspace; mappings are shared by dataspace and offset alone. */
  datatype Key = Key(ds: nat, offset: nat)

  datatype Entry = Entry(phys: nat, sectors: nat, refcnt: uint32)

  /** Answer of the DMA space to a mapping request. */
  datatype HwMap = HwMap(ok: bool, size: nat, phys: nat)

  /** Both maps, with the nested one flattened. */
  datatype Cache = Cache(table: map<Key, Entry>, phys: map<nat, Key>)

  const EMPTY := Cache(map[], map[])

  predicate Granted(sectors: nat, hw: HwMap) {
    hw.ok && hw.size >= sectors * SECTOR_SIZE
  }

  /** The reference count has 32 bits. */
  function OneMore(e: Entry): Entry {
    e.(refcnt := (e.refcnt + 1) % WORD32)
  }

  /** A known region is shared whatever its size; otherwise the hardware is asked. The
      reverse map keeps an existing entry. */
  function MapStep(c: Cache, key: Key, sectors: nat, hw: HwMap): (Cache, Option<nat>) {
    if key in c.table then
      var e := c.table[key];
      (c.(table := c.table[key := OneMore(e)]), Some(e.phys))
    else if !Granted(sectors, hw) then (c, None)
    else
      (Cache(c.table[key := Entry(hw.phys, sectors, 1)], if hw.phys in c.phys then c.phys else c.phys[hw.phys := key]),
       Some(hw.phys))
  }

  datatype Unmapped = NotFound | Shared | Gone

  function UnmapStep(c: Cache, p: nat): (Cache, Unmapped) {
    if p !in c.phys || c.phys[p] !in c.table then (c, NotFound)
    else
      var key := c.phys[p];
      var e := c.table[key];
      if e.refcnt > 1 then (c.(table := c.table[key := e.(refcnt := e.refcnt - 1)]), Shared)
      else (Cache(c.table - {key}, c.phys - {p}), Gone)
  }

  // ---- The cache and the mappings in use ----

  ghost predicate Inverse(c: Cache) {
    && (forall k | k in c.table :: c.table[k].phys in c.phys && c.phys[c.table[k].phys] == k)
    && (forall p | p in c.phys :: c.phys[p] in c.table && c.table[c.phys[p]].phys == p)
  }

  /** Reference counts are the multiplicities of the mappings in use. */
  ghost predicate Counts(c: Cache, live: multiset<Key>) {
    && (forall k | k in live :: k in c.table)
    && (forall k | k in c.table :: live[k] == c.table[k].refcnt && c.table[k].refcnt >= 1)
  }

  /** The hardware hands out an address that is not in use. */
  predicate Fresh(c: Cache, key: Key, sectors: nat, hw: HwMap) {
    key !in c.table && Granted(sectors, hw) ==> hw.phys !in c.phys
  }

  /** Mapping keeps the two maps inverse if and only if the address is fresh. */
  lemma {:induction false} MapInverse(c: Cache, key: Key, sectors: nat, hw: HwMap)
    requires Inverse(c)
    ensures Inverse(MapStep(c, key, sectors, hw).0) <==> Fresh(c, key, sectors, hw)
  {
    var c' := MapStep(c, key, sectors, hw).0;
    if !Fresh(c, key, sectors, hw) {
      assert key in c'.table && c'.table[key].phys == hw.phys;
      assert c'.phys[hw.phys] in c.table;
    }
  }

  /** The address a mapping hands out: that of the region where it is known, and otherwise
      that of the hardware, exactly if the hardware agrees to all the sectors. It leads
      back to the region, and the other regions stay as they are. */
  lemma {:induction false} MapAddress(c: Cache, key: Key, sectors: nat, hw: HwMap)
    requires Inverse(c) && Fresh(c, key, sectors, hw)
    ensures var (c', r) := MapStep(c, key, sectors, hw);
            && (key in c.table ==> r == Some(c.table[key].phys))
            && (key !in c.table ==> r == if hw.ok && sectors * 512 <= hw.size then Some(hw.phys) else None)
            && (r.Some? ==> Stands(c', key, r.value))
            && (key !in c.table && r.Some? ==> c'.table[key].sectors == sectors)
            && (forall k | k in c.table :: k in c'.table && SameMapping(c.table[k], c'.table[k]))
  {
    var (c', r) := MapStep(c, key, sectors, hw);
    MapInverse(c, key, sectors, hw);
    if r.Some? {
      assert key in c'.table && c'.table[key].phys == r.value;
    }
  }

  /** The address stands for the region in both maps. */
  predicate Stands(c: Cache, key: Key, p: nat) {
    p in c.phys && c.phys[p] == key && key in c.table && c.table[key].phys == p
  }

  predicate SameMapping(e: Entry, f: Entry) {
    e.phys == f.phys && e.sectors == f.sectors
  }

  /** The entry handed out is large enough. */
  predicate Covers(c: Cache, key: Key, sectors: nat) {
    key in c.table && c.table[key].sectors >= sectors
  }

  /** A mapping that succeeds covers the sectors asked for if and only if the region was
      not known or known with at least that size: sharing does not look at the size. A
      longer mapping of the same region then is answered with a shorter one. */
  lemma {:induction false} MapCovers(c: Cache, key: Key, sectors: nat, hw: HwMap)
    requires MapStep(c, key, sectors, hw).1.Some?
    ensures var c' := MapStep(c, key, sectors, hw).0;
            Covers(c', key, sectors) <==> key !in c.table || Covers(c, key, sectors)
    ensures key in c.table ==>
              forall more | c.table[key].sectors < more ::
                MapStep(c, key, more, hw).1.Some? && !Covers(MapStep(c, key, more, hw).0, key, more)
  {
    if key in c.table {
      forall more | c.table[key].sectors < more
        ensures MapStep(c, key, more, hw).1.Some? && !Covers(MapStep(c, key, more, hw).0, key, more)
      {
        assert MapStep(c, key, more, hw).0.table[key] == OneMore(c.table[key]);
      }
    }
  }

  /** A mapping that succeeds is counted once. */
  lemma {:induction false} MapCounts(c: Cache, live: multiset<Key>, key: Key, sectors: nat, hw: HwMap)
    requires Counts(c, live) && live[key] < WORD32 - 1
    ensures var (c', r) := MapStep(c, key, sectors, hw);
            && Counts(c', if r.Some? then live + multiset{key} else live)
            && (r.None? <==> live[key] == 0 && !Granted(sectors, hw))
  {
    var (c', r) := MapStep(c, key, sectors, hw);
    if key in c.table {
      assert c.table[key].refcnt + 1 < WORD32;
      Small(c.table[key].refcnt + 1);
    } else {
      assert key !in live;
    }
  }

  lemma {:induction false} Small(n: nat)
    requires n < WORD32
    ensures n % WORD32 == n
  {
  }

  /** Unmapping takes away one mapping of the region the address stands for. It fails
      only for addresses that are not in use. */
  lemma {:induction false} UnmapKeeps(c: Cache, live: multiset<Key>, p: nat)
    requires Inverse(c) && Counts(c, live)
    ensures var (c', r) := UnmapStep(c, p);
            && Inverse(c')
            && (r == NotFound <==> p !in c.phys)
            && (r == NotFound ==> c' == c)
            && (r != NotFound ==>
                  && Counts(c', live - multiset{c.phys[p]})
                  && (r == Gone <==> live[c.phys[p]] == 1))
  {
  }

  /** What is left of the maps keeps its addresses and sizes. */
  lemma {:induction false} UnmapSame(c: Cache, p: nat)
    requires Inverse(c)
    ensures var (c', r) := UnmapStep(c, p);
            && (forall k | k in c'.table :: k in c.table && SameMapping(c.table[k], c'.table[k]))
            && (forall k | k in c.table && c.table[k].phys != p :: k in c'.table)
  {
  }

  // ---- Runs ----

  datatype Op = Map(key: Key, sectors: nat, hw: HwMap) | Unmap(phys: nat)

  /** Hardware mappings made and undone; `lost` are those made but too short, which
      nobody undoes. */
  datatype Account = Account(made: nat, undone: nat, lost: nat)

  /** What a client holds: the region it asked for and the address it was given. */
  datatype Handle = Handle(key: Key, phys: nat)

  datatype World = World(cache: Cache, live: multiset<Key>, held: multiset<Handle>, hw: Account)

  ghost function Do(x: World, op: Op): World {
    match op
    case Map(key, sectors, hw) =>
      var (c, r) := MapStep(x.cache, key, sectors, hw);
      var asked := key !in x.cache.table;
      World(c, if r.Some? then x.live + multiset{key} else x.live,
            if r.Some? then x.held + multiset{Handle(key, r.value)} else x.held,
            Account(x.hw.made + (if asked && hw.ok then 1 else 0), x.hw.undone,
                    x.hw.lost + (if asked && hw.ok && !Granted(sectors, hw) then 1 else 0)))
    case Unmap(p) =>
      var (c, r) := UnmapStep(x.cache, p);
      World(c, if r == NotFound then x.live else x.live - multiset{x.cache.phys[p]},
            if r == NotFound then x.held else x.held - multiset{Handle(x.cache.phys[p], p)},
            x.hw.(undone := x.hw.undone + if r == Gone then 1 else 0))
  }

  ghost predicate Allowed(x: World, op: Op) {
    op.Map? ==> Fresh(x.cache, op.key, op.sectors, op.hw) && x.live[op.key] < WORD32 - 1
  }

  /** Whatever clients hold is in the maps, once for every mapping of the region. */
  ghost predicate Holds(c: Cache, live: multiset<Key>, held: multiset<Handle>) {
    && (forall h | h in held :: Stands(c, h.key, h.phys))
    && (forall k | k in c.table :: held[Handle(k, c.table[k].phys)] == live[k])
  }

  ghost predicate Good(x: World) {
    && Inverse(x.cache) && Counts(x.cache, x.live) && Holds(x.cache, x.live, x.held)
    && x.hw.made == x.hw.undone + x.hw.lost + |x.cache.table|
  }

  /** One step: the hardware is asked exactly for the first mapping of a region, and told
      exactly after the last one. */
  lemma {:induction false} DoGood(x: World, op: Op)
    requires Good(x) && Allowed(x, op)
    ensures Good(Do(x, op))
    ensures op.Map? ==> (Do(x, op).hw.made != x.hw.made <==> x.live[op.key] == 0 && op.hw.ok)
    ensures op.Unmap? && op.phys in x.cache.phys
            ==> (Do(x, op).hw.undone != x.hw.undone <==> x.live[x.cache.phys[op.phys]] == 1)
  {
    match op
    case Map(key, sectors, hw) =>
      MapGood(x, key, sectors, hw);
    case Unmap(p) =>
      UnmapGood(x, p);
  }

  lemma {:induction false} MapGood(x: World, key: Key, sectors: nat, hw: HwMap)
    requires Good(x) && Allowed(x, Map(key, sectors, hw))
    ensures var y := Do(x, Map(key, sectors, hw));
            Good(y) && (y.hw.made != x.hw.made <==> x.live[key] == 0 && hw.ok)
  {
    MapInverse(x.cache, key, sectors, hw);
    MapCounts(x.cache, x.live, key, sectors, hw);
    MapHolds(x, key, sectors, hw);
  }

  lemma {:induction false} UnmapGood(x: World, p: nat)
    requires Good(x)
    ensures var y := Do(x, Unmap(p));
            Good(y) && (p in x.cache.phys ==> (y.hw.undone != x.hw.undone <==> x.live[x.cache.phys[p]] == 1))
  {
    UnmapKeeps(x.cache, x.live, p);
    UnmapHolds(x, p);
    Forgotten(x.cache, p);
  }

  lemma {:induction false} Forgotten(c: Cache, p: nat)
    requires Inverse(c)
    ensures var (c', r) := UnmapStep(c, p); |c'.table| + (if r == Gone then 1 else 0) == |c.table|
  {
    if p in c.phys {
      var key := c.phys[p];
      var e := c.table[key];
      assert (c.table - {key})[key := e] == c.table;
      assert e.refcnt > 1 ==> c.table[key := e.(refcnt := e.refcnt - 1)].Keys == c.table.Keys;
    }
  }

  lemma {:induction false} MapHolds(x: World, key: Key, sectors: nat, hw: HwMap)
    requires Good(x) && Allowed(x, Map(key, sectors, hw))
    ensures var y := Do(x, Map(key, sectors, hw)); Holds(y.cache, y.live, y.held)
  {
    var (c', r) := MapStep(x.cache, key, sectors, hw);
    if r.Some? {
      MapAddress(x.cache, key, sectors, hw);
      OneMoreHeld(x.cache, x.live, x.held, c', key, r.value);
    }
  }

  lemma {:induction false} OneMoreHeld(c: Cache, live: multiset<Key>, held: multiset<Handle>, c': Cache, key: Key,
                                       p: nat)
    requires Counts(c, live) && Holds(c, live, held) && Stands(c', key, p)
    requires forall k :: k in c'.table <==> k in c.table || k == key
    requires forall k | k in c.table :: c'.table[k].phys == c.table[k].phys
    requires forall q | q in c.phys :: q in c'.phys && c'.phys[q] == c.phys[q]
    ensures Holds(c', live + multiset{key}, held + multiset{Handle(key, p)})
  {
    var live', held' := live + multiset{key}, held + multiset{Handle(key, p)};
    forall h | h in held'
      ensures Stands(c', h.key, h.phys)
    {
      assert h in held || h == Handle(key, p);
    }
    forall k | k in c'.table
      ensures held'[Handle(k, c'.table[k].phys)] == live'[k]
    {
      HeldOnce(c, live, held, k, c'.table[k].phys);
      assert k != key ==> Handle(k, c'.table[k].phys) != Handle(key, p);
    }
  }

  lemma {:induction false} HeldOnce(c: Cache, live: multiset<Key>, held: multiset<Handle>, k: Key, p: nat)
    requires Counts(c, live) && Holds(c, live, held)
    requires k in c.table ==> c.table[k].phys == p
    ensures held[Handle(k, p)] == live[k]
  {
    if k !in c.table {
      assert k !in live;
      assert Handle(k, p) in held ==> Stands(c, Handle(k, p).key, p);
    }
  }

  lemma {:induction false} UnmapHolds(x: World, p: nat)
    requires Good(x)
    ensures var y := Do(x, Unmap(p)); Holds(y.cache, y.live, y.held)
  {
    var (c', r) := UnmapStep(x.cache, p);
    if r != NotFound {
      UnmapSame(x.cache, p);
      OneLessHeld(x.cache, x.live, x.held, c', x.cache.phys[p], p);
    }
  }

  lemma {:induction false} OneLessHeld(c: Cache, live: multiset<Key>, held: multiset<Handle>, c': Cache, key: Key,
                                       p: nat)
    requires Inverse(c) && Counts(c, live) && Holds(c, live, held) && Stands(c, key, p)
    requires forall k | k in c'.table :: k in c.table && c'.table[k].phys == c.table[k].phys
    requires forall k | k in c.table && (k != key || live[key] > 1) :: k in c'.table
    requires forall k | k in c'.table :: Stands(c', k, c'.table[k].phys)
    ensures Holds(c', live - multiset{key}, held - multiset{Handle(key, p)})
  {
    var live', held' := live - multiset{key}, held - multiset{Handle(key, p)};
    HeldOnce(c, live, held, key, p);
    forall h | h in held'
      ensures Stands(c', h.key, h.phys)
    {
      assert h in held && Stands(c, h.key, h.phys);
      assert h.key == key ==> h == Handle(key, p);
    }
    forall k | k in c'.table
      ensures held'[Handle(k, c'.table[k].phys)] == live'[k]
    {
      assert k != key ==> Handle(k, c'.table[k].phys) != Handle(key, p);
    }
  }

  /** An address a client holds can be unmapped, and this takes away one mapping of the
      very region it was given for; any other address is refused. */
  lemma {:induction false} HandleExact(x: World, p: nat)
    requires Good(x)
    ensures UnmapStep(x.cache, p).1 != NotFound <==> exists k :: Handle(k, p) in x.held
    ensures forall k | Handle(k, p) in x.held ::
              && Do(x, Unmap(p)).live == x.live - multiset{k}
              && Do(x, Unmap(p)).held == x.held - multiset{Handle(k, p)}
  {
    forall k | Handle(k, p) in x.held
      ensures Stands(x.cache, k, p)
    {
      assert Stands(x.cache, Handle(k, p).key, Handle(k, p).phys);
    }
    if p in x.cache.phys {
      assert x.held[Handle(x.cache.phys[p], p)] == x.live[x.cache.phys[p]] >= 1;
    }
  }

  ghost function DoAll(x: World, ops: seq<Op>): World
    decreases |ops|
  {
    if ops == [] then x else DoAll(Do(x, ops[0]), ops[1..])
  }

  ghost predicate AllAllowed(x: World, ops: seq<Op>)
    decreases |ops|
  {
    ops == [] || (Allowed(x, ops[0]) && AllAllowed(Do(x, ops[0]), ops[1..]))
  }

  /** Any run: the maps stay inverse and count the mappings in use, the addresses clients
      hold stand for their regions, and no hardware mapping is forgotten but the ones that
      were too short. When all mappings have been undone, both maps are empty. */
  lemma {:induction false} CacheRuns(x: World, ops: seq<Op>)
    requires Good(x) && AllAllowed(x, ops)
    ensures Good(DoAll(x, ops))
    ensures DoAll(x, ops).live == multiset{} ==> DoAll(x, ops).cache == EMPTY
    decreases |ops|
  {
    if ops == [] {
      if x.live == multiset{} {
        Idle(x.cache);
      }
    } else {
      DoGood(x, ops[0]);
      CacheRuns(Do(x, ops[0]), ops[1..]);
    }
  }

  lemma {:induction false} Idle(c: Cache)
    requires Inverse(c) && Counts(c, multiset{})
    ensures c == EMPTY
  {
    assert forall k :: k !in c.table;
    assert forall p :: p !in c.phys;
  }

  // ---- The driver's maps ----

  type Nested = map<nat, map<nat, Entry>>

  ghost function Flat(m: Nested): map<Key, Entry> {
    map ds, o | ds in m && o in m[ds] :: Key(ds, o) := m[ds][o]
  }

  function Inner(m: Nested, ds: nat): map<nat, Entry> {
    if ds in m then m[ds] else map[]
  }

  lemma {:induction false} FlatGet(m: Nested, ds: nat, o: nat)
    ensures Key(ds, o) in Flat(m) <==> o in Inner(m, ds)
    ensures o in Inner(m, ds) ==> Flat(m)[Key(ds, o)] == Inner(m, ds)[o]
  {
  }

  lemma {:induction false} FlatPut(m: Nested, ds: nat, o: nat, e: Entry)
    ensures Flat(m[ds := Inner(m, ds)[o := e]]) == Flat(m)[Key(ds, o) := e]
  {
    var f, g := Flat(m[ds := Inner(m, ds)[o := e]]), Flat(m)[Key(ds, o) := e];
    assert forall k :: k in f <==> k in g;
    assert forall k | k in f :: f[k] == g[k];
  }

  lemma {:induction false} FlatRemove(m: Nested, ds: nat, o: nat)
    requires ds in m && o in m[ds]
    ensures var rest := m[ds] - {o};
            Flat(if rest == map[] then m - {ds} else m[ds := rest]) == Flat(m) - {Key(ds, o)}
  {
    var rest := m[ds] - {o};
    var f, g := Flat(if rest == map[] then m - {ds} else m[ds := rest]), Flat(m) - {Key(ds, o)};
    if rest == map[] {
      assert forall p | p in m[ds] :: p != o ==> p in rest;
    }
    assert forall k :: k in f <==> k in g;
    assert forall k | k in f :: f[k] == g[k];
  }

  class DmaMaps {
    var dsOffsMap: Nested
    var physMap: map<nat, Key>

    /** No inner map is empty. */
    ghost predicate Valid()
      reads this
    {
      forall ds | ds in dsOffsMap :: dsOffsMap[ds] != map[]
    }

    ghost function Abs(): Cache
      reads this
    {
      Cache(Flat(dsOffsMap), physMap)
    }

    constructor ()
      ensures Valid() && Abs() == EMPTY
    {
      dsOffsMap, physMap := map[], map[];
    }

    /** Enter or replace one region. */
    method Put(key: Key, e: Entry)
      requires Valid()
      modifies this`dsOffsMap
      ensures Valid() && Abs() == old(Abs()).(table := old(Abs()).table[key := e])
    {
      var inner: map<nat, Entry> := Inner(dsOffsMap, key.ds);
      FlatPut(dsOffsMap, key.ds, key.offset, e);
      inner := inner[key.offset := e];
      dsOffsMap := dsOffsMap[key.ds := inner];
    }

    /** Enter a new mapping into both maps; the reverse map keeps an existing entry. */
    method Register(key: Key, sectors: nat, hw: HwMap)
      requires Valid() && key !in Abs().table && Granted(sectors, hw)
      modifies this
      ensures Valid() && Abs() == MapStep(old(Abs()), key, sectors, hw).0
    {
      Put(key, Entry(hw.phys, sectors, 1));
      if hw.phys !in physMap {
        physMap := physMap[hw.phys := key];
      }
    }

    method MapSingle(ds: nat, offset: nat, sectors: nat, hw: HwMap) returns (r: Option<nat>, asked: bool)
      requires Valid()
      modifies this
      ensures Valid() && (Abs(), r) == MapStep(old(Abs()), Key(ds, offset), sectors, hw)
      ensures asked <==> Key(ds, offset) !in old(Abs()).table
    {
      FlatGet(dsOffsMap, ds, offset);
      var inner := Inner(dsOffsMap, ds);
      if offset in inner {
        var e := inner[offset];
        Put(Key(ds, offset), OneMore(e));
        return Some(e.phys), false;
      }
      if !Granted(sectors, hw) {
        return None, true;
      }
      Register(Key(ds, offset), sectors, hw);
      return Some(hw.phys), true;
    }

    method UnmapSingle(p: nat) returns (r: Unmapped)
      requires Valid()
      modifies this
      ensures Valid() && (Abs(), r) == UnmapStep(old(Abs()), p)
    {
      if p !in physMap {
        return NotFound;
      }
      var key := physMap[p];
      FlatGet(dsOffsMap, key.ds, key.offset);
      var inner := Inner(dsOffsMap, key.ds);
      if key.offset !in inner {
        return NotFound;
      }
      var e := inner[key.offset];
      if e.refcnt > 1 {
        Put(key, e.(refcnt := e.refcnt - 1));
        return Shared;
      }
      FlatRemove(dsOffsMap, key.ds, key.offset);
      var rest: map<nat, Entry> := inner - {key.offset};
      dsOffsMap := if rest == map[] then dsOffsMap - {key.ds} else dsOffsMap[key.ds := rest];
      physMap := physMap - {p};
      return Gone;
    }
  }
}
