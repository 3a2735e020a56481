/** render_expired: every expired tile on the input is followed up through the zoom levels,
    and the metatile at each level is deleted, touched or rendered again, once.  The walk up
    stops early at the first metatile already dealt with. */
module Expire {
  import opened Arith
  import opened Protocol
  import opened Seqs

  /** log2(METATILE): so many zoom levels share one metatile at the top. */
  const EXCESS := 3
  const TWO24 := 0x100_0000
  const TWO48 := 0x1_0000_0000_0000

  datatype Tile = Tile(z: int, x: int, y: int)

  predicate OnGrid(t: Tile) {
    0 <= t.z && 0 <= t.x < Pow2(t.z) && 0 <= t.y < Pow2(t.z)
  }

  function Parent(t: Tile): Tile {
    Tile(t.z - 1, t.x / 2, t.y / 2)
  }

  function Child(t: Tile): Tile {
    Tile(t.z + 1, t.x * 2, t.y * 2)
  }

  /** A metatile is named by its corner, eight to one, on a zoom scale of its own. */
  function Meta(t: Tile): Tile {
    Tile(t.z - EXCESS, t.x / 8, t.y / 8)
  }

  /** The tile of level `max` that a line of input stands for. */
  function Normal(t: Tile, max: int): Tile
    decreases if t.z > max then t.z - max else max - t.z
  {
    if t.z > max then Normal(Parent(t), max)
    else if t.z < max then Normal(Child(t), max)
    else t
  }

  /** All metatiles above and including that of `t`, down to level `min`: what a walk without
      early exit visits. */
  function Walk(t: Tile, min: int): set<Tile>
    decreases t.z - min
  {
    if t.z < min then {} else {Meta(t)} + Walk(Parent(t), min)
  }

  function FullExpansion(lines: seq<Tile>, max: int, min: int): set<Tile> {
    if lines == [] then {}
    else FullExpansion(lines[..|lines| - 1], max, min) + Walk(Normal(lines[|lines| - 1], max), min)
  }

  // ------------------------------------------------------------ the packed key

  function TileKey(m: Tile): int {
    m.z * TWO48 + m.x % TWO24 * TWO24 + m.y % TWO24
  }

  predicate Packable(m: Tile) {
    0 <= m.x < TWO24 && 0 <= m.y < TWO24
  }

  lemma TileKeyInjective(a: Tile, b: Tile)
    requires Packable(a) && Packable(b) && TileKey(a) == TileKey(b)
    ensures a == b
  {
    assert a.x % TWO24 == a.x && a.y % TWO24 == a.y && b.x % TWO24 == b.x && b.y % TWO24 == b.y;
    assert a.z * TWO48 + a.x * TWO24 + a.y == b.z * TWO48 + b.x * TWO24 + b.y;
    assert a.z == b.z;
    assert a.x == b.x;
  }

  /** Different metatiles of the set have different keys. */
  ghost predicate KeysTellApart(metas: set<Tile>) {
    forall m, m' {:trigger TileKey(m), TileKey(m')} ::
      m in metas && m' in metas && TileKey(m) == TileKey(m') ==> m == m'
  }

  ghost function KeysOf(metas: set<Tile>): set<int> {
    set m | m in metas :: TileKey(m)
  }

  lemma {:induction false} NormalOnGrid(t: Tile, max: int)
    requires OnGrid(t) && 0 <= max
    ensures OnGrid(Normal(t, max)) && Normal(t, max).z == max
    decreases if t.z > max then t.z - max else max - t.z
  {
    if t.z > max {
      NormalOnGrid(Parent(t), max);
    } else if t.z < max {
      NormalOnGrid(Child(t), max);
    }
  }

  lemma MetaPackable(t: Tile)
    requires OnGrid(t) && t.z <= MAX_ZOOM
    ensures Packable(Meta(t))
  {
    Pow2Grows(t.z, 20);
    Pow2Of20();
  }

  // ------------------------------------------------------------ why stopping early is right

  ghost predicate Closed(metas: set<Tile>, min: int) {
    forall m :: m in metas && m.z + EXCESS > min ==> Parent(m) in metas
  }

  lemma ParentOfMeta(t: Tile)
    ensures Parent(Meta(t)) == Meta(Parent(t))
  {
  }

  /** A closed set that has a metatile has everything above it. */
  lemma {:induction false} ClosedHasWalk(metas: set<Tile>, t: Tile, min: int)
    requires Closed(metas, min) && (t.z >= min ==> Meta(t) in metas)
    ensures Walk(t, min) <= metas
    decreases t.z - min
  {
    if t.z > min {
      ParentOfMeta(t);
      ClosedHasWalk(metas, Parent(t), min);
    } else if t.z == min {
      assert Walk(Parent(t), min) == {};
    }
  }

  lemma {:induction false} WalkLevels(t: Tile, min: int, m: Tile)
    requires m in Walk(t, min)
    ensures min - EXCESS <= m.z <= t.z - EXCESS
    ensures m.z + EXCESS > min ==> Parent(m) in Walk(t, min)
    decreases t.z - min
  {
    if m == Meta(t) {
      ParentOfMeta(t);
    } else {
      WalkLevels(Parent(t), min, m);
    }
  }

  lemma ClosedGrows(metas: set<Tile>, t: Tile, min: int)
    requires Closed(metas, min)
    ensures Closed(metas + Walk(t, min), min)
  {
    forall m | m in metas + Walk(t, min) && m.z + EXCESS > min ensures Parent(m) in metas + Walk(t, min) {
      if m !in metas {
        WalkLevels(t, min, m);
      }
    }
  }

  // ------------------------------------------------------------ what a metatile is

  /** The square of 8x8 tiles that metatile `m` holds has tile `t`. */
  predicate HasTile(m: Tile, t: Tile) {
    t.z == m.z + 3 && 8 * m.x <= t.x < 8 * m.x + 8 && 8 * m.y <= t.y < 8 * m.y + 8
  }

  lemma MetaHasTile(m: Tile, t: Tile)
    ensures Meta(t) == m <==> HasTile(m, t)
  {
  }

  /** Two tiles of one level are in one metatile exactly if they have the same corner: what is one
      metatile here is one file of the store and one request to the daemon. */
  lemma SameMetaExactly(a: Tile, b: Tile)
    requires a.z == b.z
    ensures Meta(a) == Meta(b) <==> Corner(a.x) == Corner(b.x) && Corner(a.y) == Corner(b.y)
  {
  }

  /** The tile of level `z` that a tile lies in. */
  function Ancestor(t: Tile, z: int): Tile
    requires z <= t.z
  {
    Tile(z, t.x / Pow2(t.z - z), t.y / Pow2(t.z - z))
  }

  /** What a line stands for at level `max`: the tile it lies in there, or the first of those that
      it is made of. */
  function Brought(t: Tile, max: int): Tile {
    if t.z >= max then Ancestor(t, max) else Tile(max, t.x * Pow2(max - t.z), t.y * Pow2(max - t.z))
  }

  lemma AncestorOfParent(t: Tile, z: int)
    requires z < t.z
    ensures Ancestor(Parent(t), z) == Ancestor(t, z)
  {
    DivTwice(t.x, Pow2(t.z - 1 - z));
    DivTwice(t.y, Pow2(t.z - 1 - z));
  }

  lemma {:induction false} NormalIsBrought(t: Tile, max: int)
    ensures Normal(t, max) == Brought(t, max)
    decreases if t.z > max then t.z - max else max - t.z
  {
    if t.z > max {
      AncestorOfParent(t, max);
      NormalIsBrought(Parent(t), max);
    } else if t.z < max {
      NormalIsBrought(Child(t), max);
      Doubled(t.x, Pow2(max - t.z - 1));
      Doubled(t.y, Pow2(max - t.z - 1));
    } else {
      assert Pow2(0) == 1;
    }
  }

  lemma Doubled(a: int, d: int)
    ensures a * 2 * d == a * (2 * d)
  {
  }

  ghost predicate OnTheWayUp(m: Tile, t: Tile, min: int) {
    exists z :: min <= z <= t.z && HasTile(m, Ancestor(t, z))
  }

  /** The way up from a tile is the metatiles that hold its ancestors. */
  lemma {:induction false} WalkHolds(t: Tile, min: int, m: Tile)
    ensures m in Walk(t, min) <==> OnTheWayUp(m, t, min)
    decreases t.z - min
  {
    if t.z >= min {
      MetaHasTile(m, t);
      assert Ancestor(t, t.z) == t by { assert Pow2(0) == 1; }
      WalkHolds(Parent(t), min, m);
      if OnTheWayUp(m, Parent(t), min) {
        var z :| min <= z <= t.z - 1 && HasTile(m, Ancestor(Parent(t), z));
        AncestorOfParent(t, z);
      }
      if OnTheWayUp(m, t, min) {
        var z :| min <= z <= t.z && HasTile(m, Ancestor(t, z));
        if z < t.z {
          AncestorOfParent(t, z);
        }
      }
    }
  }

  /** Metatile `m` has the ancestor, at a level between the lowest and the highest, of what some line
      stands for at the highest. */
  ghost predicate Affected(m: Tile, lines: seq<Tile>, max: int, min: int) {
    exists i :: 0 <= i < |lines| && OnTheWayUp(m, Brought(lines[i], max), min)
  }

  lemma {:induction false} ExpansionIsAffected(lines: seq<Tile>, max: int, min: int, m: Tile)
    ensures m in FullExpansion(lines, max, min) <==> Affected(m, lines, max, min)
  {
    hide OnTheWayUp, Walk, Normal, Brought;
    if lines != [] {
      var n := |lines| - 1;
      ExpansionIsAffected(lines[..n], max, min, m);
      NormalIsBrought(lines[n], max);
      WalkHolds(Normal(lines[n], max), min, m);
      if Affected(m, lines[..n], max, min) {
        var i :| 0 <= i < n && OnTheWayUp(m, Brought(lines[..n][i], max), min);
        assert lines[i] == lines[..n][i];
      }
      if Affected(m, lines, max, min) {
        var i :| 0 <= i < |lines| && OnTheWayUp(m, Brought(lines[i], max), min);
        assert i < n ==> lines[..n][i] == lines[i];
      }
    }
  }

  // ------------------------------------------------------------ options and actions

  datatype Config = Config(minZoom: int, maxZoom: int, deleteFrom: Option<int>, touchFrom: Option<int>)

  /** What option and configuration parsing let through.  The two are compared before a map's
      own levels replace those not given as options, so the lowest may exceed the highest. */
  predicate ConfigOk(c: Config) {
    0 <= c.minZoom <= MAX_ZOOM && 0 <= c.maxZoom <= MAX_ZOOM
  }

  function MinZoom(c: Config): int {
    if c.minZoom < EXCESS then EXCESS else c.minZoom
  }

  /** Whether worker threads are started at all. */
  predicate DoRender(c: Config) {
    || (c.touchFrom.Some? && MinZoom(c) < c.touchFrom.value)
    || (c.deleteFrom.Some? && MinZoom(c) < c.deleteFrom.value)
    || (c.touchFrom.None? && c.deleteFrom.None?)
  }

  datatype Action = Deleted | Touched | Enqueued | Ignored

  /** What is to happen to a metatile of zoom level `z`. */
  function ActionFor(c: Config, z: int, onDisk: bool): Action {
    if !onDisk then Ignored
    else if c.deleteFrom.Some? && z >= c.deleteFrom.value then Deleted
    else if c.touchFrom.Some? && z >= c.touchFrom.value then Touched
    else Enqueued
  }

  /** A metatile is never left to workers that were not started. */
  lemma WorkersCoverTheNeed(c: Config, z: int)
    requires ConfigOk(c) && z >= MinZoom(c)
    ensures ActionFor(c, z, true) == Enqueued ==> DoRender(c)
  {
  }

  /** The levels a walk can come through: from the highest up to the lowest. */
  predicate Walked(c: Config, z: int) {
    MinZoom(c) <= z <= c.maxZoom
  }

  /** Workers are started for nothing exactly if one of the two thresholds covers all levels
      and the other does not, or if they are started although there is no level to walk. */
  lemma IdleWorkersExactly(c: Config)
    requires ConfigOk(c)
    ensures (DoRender(c) && forall z :: Walked(c, z) ==> ActionFor(c, z, true) != Enqueued) <==>
            || (c.deleteFrom.Some? && c.touchFrom.Some?
                && (c.deleteFrom.value <= MinZoom(c)) != (c.touchFrom.value <= MinZoom(c)))
            || (c.maxZoom < MinZoom(c) && DoRender(c))
  {
    if c.maxZoom >= MinZoom(c) {
      assert Walked(c, MinZoom(c));
      assert ActionFor(c, MinZoom(c), true) == Enqueued <==>
        && (c.deleteFrom.Some? ==> c.deleteFrom.value > MinZoom(c))
        && (c.touchFrom.Some? ==> c.touchFrom.value > MinZoom(c));
    }
  }

  /** A highest level of 2 shows the second case: the lowest is raised past it, and the workers
      wait for nothing. */
  lemma IdleBelowTheRaisedMinimum()
    ensures var c := Config(0, 2, None, None);
            && ConfigOk(c) && DoRender(c) && forall z :: !Walked(c, z)
  {
  }

  /** Touching from the lowest level on and deleting from a higher one shows the first case. */
  lemma IdleBetweenThresholds()
    ensures var c := Config(3, 18, Some(10), Some(3));
            ConfigOk(c) && DoRender(c) && forall z :: Walked(c, z) ==> ActionFor(c, z, true) != Enqueued
  {
  }

  function Count(log: seq<(Tile, Action)>, a: Action): nat {
    if log == [] then 0 else Count(log[..|log| - 1], a) + if log[|log| - 1].1 == a then 1 else 0
  }

  lemma EveryActionCounted(log: seq<(Tile, Action)>)
    ensures Count(log, Deleted) + Count(log, Touched) + Count(log, Enqueued) + Count(log, Ignored) == |log|
  {
  }

  // The walk as the program does it, on packed keys and for any line whatever.

  /** The metatiles that a walk deals with, in order, and the keys marked afterwards. */
  function DealUp(keys: set<int>, t: Tile, min: int): seq<Tile>
    decreases t.z - min
  {
    if t.z < min || TileKey(Meta(t)) in keys then []
    else [Meta(t)] + DealUp(keys + {TileKey(Meta(t))}, Parent(t), min)
  }

  function MarkUp(keys: set<int>, t: Tile, min: int): set<int>
    decreases t.z - min
  {
    if t.z < min || TileKey(Meta(t)) in keys then keys
    else MarkUp(keys + {TileKey(Meta(t))}, Parent(t), min)
  }

  function MarkAll(lines: seq<Tile>, max: int, min: int): set<int> {
    if lines == [] then {}
    else MarkUp(MarkAll(lines[..|lines| - 1], max, min), Normal(lines[|lines| - 1], max), min)
  }

  /** All metatiles dealt with, in order. */
  function DealAll(lines: seq<Tile>, max: int, min: int): seq<Tile> {
    if lines == [] then []
    else
      var n := |lines| - 1;
      DealAll(lines[..n], max, min) + DealUp(MarkAll(lines[..n], max, min), Normal(lines[n], max), min)
  }

  lemma ElemsOfBoth(a: seq<Tile>, b: seq<Tile>)
    ensures Elems(a + b) == Elems(a) + Elems(b)
  {
  }

  /** In a set that keys tell apart, the key test asks about the metatile itself. */
  lemma KeyTestIsExact(all: set<Tile>, metas: set<Tile>, m: Tile)
    requires KeysTellApart(all) && metas <= all && m in all
    ensures TileKey(m) in KeysOf(metas) <==> m in metas
  {
    hide TileKey;
  }

  lemma KeysGrow(metas: set<Tile>, m: Tile)
    ensures KeysOf(metas + {m}) == KeysOf(metas) + {TileKey(m)}
  {
    hide TileKey;
  }

  /** From a closed set, the walk that stops early marks and deals with what the full walk
      would, as long as the keys tell apart all that is met.  `done` is what this walk has dealt
      with so far, all of it further down. */
  lemma {:induction false} DealUpIsWalk(all: set<Tile>, metas: set<Tile>, done: set<Tile>, t: Tile, min: int)
    requires KeysTellApart(all) && metas + done + Walk(t, min) <= all && Closed(metas, min)
    requires forall m :: m in done ==> m.z > t.z - EXCESS
    ensures MarkUp(KeysOf(metas + done), t, min) == KeysOf(metas + done + Walk(t, min))
    ensures metas + done + Elems(DealUp(KeysOf(metas + done), t, min)) == metas + done + Walk(t, min)
    decreases t.z - min
  {
    hide KeysTellApart, KeysOf, TileKey, Closed;
    var had := metas + done;
    if t.z < min {
      assert had + Walk(t, min) == had;
    } else {
      var m := Meta(t);
      KeyTestIsExact(all, had, m);
      if TileKey(m) in KeysOf(had) {
        ClosedHasWalk(metas, t, min);
        assert had + Walk(t, min) == had;
      } else {
        var done' := done + {m};
        assert had + {m} == metas + done';
        assert had + Walk(t, min) == metas + done' + Walk(Parent(t), min);
        KeysGrow(had, m);
        DealUpIsWalk(all, metas, done', Parent(t), min);
        ElemsOfBoth([m], DealUp(KeysOf(metas + done'), Parent(t), min));
        assert Elems([m]) == {m};
      }
    }
  }

  lemma {:induction false} ExpansionClosed(lines: seq<Tile>, max: int, min: int)
    ensures Closed(FullExpansion(lines, max, min), min)
  {
    if lines != [] {
      var n := |lines| - 1;
      ExpansionClosed(lines[..n], max, min);
      ClosedGrows(FullExpansion(lines[..n], max, min), Normal(lines[n], max), min);
    }
  }

  lemma {:induction false} DealAllIsExpansion(all: set<Tile>, lines: seq<Tile>, max: int, min: int)
    requires KeysTellApart(all) && FullExpansion(lines, max, min) <= all
    ensures MarkAll(lines, max, min) == KeysOf(FullExpansion(lines, max, min))
    ensures Elems(DealAll(lines, max, min)) == FullExpansion(lines, max, min)
  {
    hide KeysTellApart, Walk, MarkUp, DealUp, Normal, Closed;
    if lines != [] {
      var n := |lines| - 1;
      var metas, t := FullExpansion(lines[..n], max, min), Normal(lines[n], max);
      DealAllIsExpansion(all, lines[..n], max, min);
      ExpansionClosed(lines[..n], max, min);
      assert metas + {} == metas;
      DealUpIsWalk(all, metas, {}, t, min);
      ElemsOfBoth(DealAll(lines[..n], max, min), DealUp(MarkAll(lines[..n], max, min), t, min));
    }
  }

  /** Metatiles of different keys, all of them marked in `keys` and none in `before`. */
  ghost predicate Fresh(d: seq<Tile>, before: set<int>, keys: set<int>) {
    && (forall i {:trigger d[i]} :: 0 <= i < |d| ==> TileKey(d[i]) !in before && TileKey(d[i]) in keys)
    && (forall i, j {:trigger d[i], d[j]} :: 0 <= i < j < |d| ==> TileKey(d[i]) != TileKey(d[j]))
  }

  lemma FreshBoth(a: seq<Tile>, b: seq<Tile>, k0: set<int>, k1: set<int>, k2: set<int>)
    requires k0 <= k1 <= k2 && Fresh(a, k0, k1) && Fresh(b, k1, k2)
    ensures Fresh(a + b, k0, k2)
  {
    hide TileKey;
  }

  /** A walk deals with metatiles of different keys, none of them marked before. */
  lemma {:induction false} DealUpMarks(keys: set<int>, t: Tile, min: int)
    ensures Fresh(DealUp(keys, t, min), keys, MarkUp(keys, t, min)) && keys <= MarkUp(keys, t, min)
    decreases t.z - min
  {
    hide TileKey;
    if t.z >= min && TileKey(Meta(t)) !in keys {
      var keys' := keys + {TileKey(Meta(t))};
      DealUpMarks(keys', Parent(t), min);
      FreshBoth([Meta(t)], DealUp(keys', Parent(t), min), keys, keys', MarkUp(keys', Parent(t), min));
    }
  }

  lemma {:induction false} DealAllMarks(lines: seq<Tile>, max: int, min: int)
    ensures Fresh(DealAll(lines, max, min), {}, MarkAll(lines, max, min))
  {
    hide TileKey, DealUp, MarkUp, Normal;
    if lines != [] {
      var n := |lines| - 1;
      var keys, t := MarkAll(lines[..n], max, min), Normal(lines[n], max);
      DealAllMarks(lines[..n], max, min);
      DealUpMarks(keys, t, min);
      FreshBoth(DealAll(lines[..n], max, min), DealUp(keys, t, min), {}, keys, MarkUp(keys, t, min));
    }
  }

  /** When the early exit is right, for any input at all: the metatiles dealt with are those of
      the full expansion exactly if the packed keys tell the latter apart. */
  lemma EarlyExitIsRightExactly(lines: seq<Tile>, max: int, min: int)
    ensures Elems(DealAll(lines, max, min)) == FullExpansion(lines, max, min) <==>
            KeysTellApart(FullExpansion(lines, max, min))
  {
    hide TileKey, DealAll, FullExpansion;
    var d, all := DealAll(lines, max, min), FullExpansion(lines, max, min);
    if Elems(d) == all {
      DealAllMarks(lines, max, min);
      forall m, m' | m in all && m' in all && TileKey(m) == TileKey(m') ensures m == m' {
        assert m in Elems(d) && m' in Elems(d);
        var i :| 0 <= i < |d| && d[i] == m;
        var j :| 0 <= j < |d| && d[j] == m';
        assert i == j;
      }
    }
    if KeysTellApart(all) {
      DealAllIsExpansion(all, lines, max, min);
    }
  }

  /** A line whose metatile at the highest level has coordinates of 24 bits. */
  predicate Fits(line: Tile, max: int) {
    Packable(Meta(Normal(line, max)))
  }

  lemma {:induction false} WalkPackable(t: Tile, min: int)
    requires Packable(Meta(t))
    ensures forall m :: m in Walk(t, min) ==> Packable(m)
    decreases t.z - min
  {
    if t.z >= min {
      ParentOfMeta(t);
      WalkPackable(Parent(t), min);
    }
  }

  lemma {:induction false} ExpansionPackable(lines: seq<Tile>, max: int, min: int)
    requires forall i :: 0 <= i < |lines| ==> Fits(lines[i], max)
    ensures forall m :: m in FullExpansion(lines, max, min) ==> Packable(m)
  {
    if lines != [] {
      var n := |lines| - 1;
      ExpansionPackable(lines[..n], max, min);
      WalkPackable(Normal(lines[n], max), min);
    }
  }

  /** That can be told from the lines one by one: all is well if their metatiles fit. */
  lemma EarlyExitIsFullExpansion(lines: seq<Tile>, max: int, min: int)
    requires forall i :: 0 <= i < |lines| ==> Fits(lines[i], max)
    ensures Elems(DealAll(lines, max, min)) == FullExpansion(lines, max, min)
    ensures MarkAll(lines, max, min) == KeysOf(FullExpansion(lines, max, min))
    ensures Closed(FullExpansion(lines, max, min), min)
  {
    hide FullExpansion, DealAll, MarkAll, TileKey, Packable;
    var all := FullExpansion(lines, max, min);
    ExpansionPackable(lines, max, min);
    forall m, m' | m in all && m' in all && TileKey(m) == TileKey(m') ensures m == m' {
      TileKeyInjective(m, m');
    }
    DealAllIsExpansion(all, lines, max, min);
    ExpansionClosed(lines, max, min);
  }

  /** In the terms of the store: for lines that fit, a metatile is dealt with exactly if its square
      has the ancestor of some line at some level from the highest to the lowest. */
  lemma DealtWithExactly(lines: seq<Tile>, max: int, min: int, m: Tile)
    requires forall i :: 0 <= i < |lines| ==> Fits(lines[i], max)
    ensures m in DealAll(lines, max, min) <==> Affected(m, lines, max, min)
  {
    hide DealAll, FullExpansion, Affected, Fits;
    EarlyExitIsFullExpansion(lines, max, min);
    ExpansionIsAffected(lines, max, min, m);
    assert m in DealAll(lines, max, min) <==> m in Elems(DealAll(lines, max, min));
  }

  /** Every tile on the grid fits. */
  lemma GridFits(line: Tile, max: int)
    requires OnGrid(line) && 0 <= max <= MAX_ZOOM
    ensures Fits(line, max)
  {
    NormalOnGrid(line, max);
    MetaPackable(Normal(line, max));
  }

  /** A line that does not fit, followed by one that does: their keys collide, and the second
      walk stops below a metatile that nobody deals with. */
  lemma EarlyExitCanMissAMetatile()
    ensures var lines := [Tile(4, 0x800_0000, 0), Tile(4, 0, 0)];
            && !Fits(lines[0], 4) && OnGrid(lines[1])
            && Tile(0, 0, 0) in FullExpansion(lines, 4, 3)
            && Tile(0, 0, 0) !in DealAll(lines, 4, 3)
  {
    var a, b := Tile(4, 0x800_0000, 0), Tile(4, 0, 0);
    var lines := [a, b];
    OffGridWalk();
    assert lines[..1] == [a] && [a][..0] == [];
    assert MarkAll([a], 4, 3) == MarkUp({}, a, 3) && DealAll([a], 4, 3) == DealUp({}, a, 3);
    assert DealAll(lines, 4, 3) == DealUp({}, a, 3) + DealUp(MarkUp({}, a, 3), b, 3) == DealUp({}, a, 3);
    assert FullExpansion(lines, 4, 3) == FullExpansion([a], 4, 3) + Walk(b, 3);
  }

  lemma OffGridWalk()
    ensures var a, b := Tile(4, 0x800_0000, 0), Tile(4, 0, 0);
            && Normal(a, 4) == a && Normal(b, 4) == b && !Fits(a, 4) && OnGrid(b)
            && DealUp({}, a, 3) == [Tile(1, 0x100_0000, 0), Tile(0, 0x80_0000, 0)]
            && TileKey(Meta(b)) in MarkUp({}, a, 3) && Tile(0, 0, 0) in Walk(b, 3)
  {
    var a, b := Tile(4, 0x800_0000, 0), Tile(4, 0, 0);
    assert Pow2(4) == 16;
    assert Meta(a) == Tile(1, 0x100_0000, 0) && Meta(Parent(a)) == Tile(0, 0x80_0000, 0);
    assert MarkUp({}, a, 3) == {TileKey(Meta(a)), TileKey(Meta(Parent(a)))};
    assert TileKey(Meta(a)) == TileKey(Meta(b)) == TWO48;
    assert Meta(Parent(b)) == Tile(0, 0, 0) && Walk(b, 3) == {Meta(b), Meta(Parent(b))};
  }

  // ------------------------------------------------------------ the program

  /** Each key has one entry, dealt with as its level asks for. */
  ghost predicate LogFits(log: seq<(Tile, Action)>, keys: set<int>, c: Config, onDisk: Tile -> bool) {
    && (forall i :: 0 <= i < |log| ==>
          && TileKey(log[i].0) in keys && log[i].0.z + EXCESS >= MinZoom(c)
          && log[i].1 == ActionFor(c, log[i].0.z + EXCESS, onDisk(log[i].0)))
    && (forall i, j :: 0 <= i < j < |log| ==> TileKey(log[i].0) != TileKey(log[j].0))
    && (forall k :: k in keys ==> exists i :: 0 <= i < |log| && TileKey(log[i].0) == k)
  }

  lemma LogGrows(log: seq<(Tile, Action)>, keys: set<int>, c: Config, onDisk: Tile -> bool, t: Tile)
    requires LogFits(log, keys, c, onDisk) && TileKey(Meta(t)) !in keys && t.z >= MinZoom(c)
    ensures LogFits(log + [(Meta(t), ActionFor(c, t.z, onDisk(Meta(t))))], keys + {TileKey(Meta(t))}, c, onDisk)
  {
    hide TileKey, MinZoom, ActionFor;
    var log' := log + [(Meta(t), ActionFor(c, t.z, onDisk(Meta(t))))];
    forall k | k in keys + {TileKey(Meta(t))} ensures exists i :: 0 <= i < |log'| && TileKey(log'[i].0) == k {
      if k in keys {
        var i :| 0 <= i < |log| && TileKey(log[i].0) == k;
        assert log'[i] == log[i];
      } else {
        assert log'[|log|].0 == Meta(t);
      }
    }
  }

  lemma CountGrows(log: seq<(Tile, Action)>, e: (Tile, Action), a: Action)
    ensures Count(log + [e], a) == Count(log, a) + if e.1 == a then 1 else 0
  {
    assert (log + [e])[..|log|] == log;
  }

  lemma LogSize(log: seq<(Tile, Action)>, keys: set<int>, c: Config, onDisk: Tile -> bool)
    requires LogFits(log, keys, c, onDisk)
    ensures |log| == |keys|
  {
    hide TileKey, MinZoom, ActionFor;
    KeysOfLog(log);
    var logged := set i | 0 <= i < |log| :: TileKey(log[i].0);
    forall k | k in keys ensures k in logged {
      var i :| 0 <= i < |log| && TileKey(log[i].0) == k;
    }
    assert logged == keys;
  }

  lemma EnqueuedNeedsWorkers(log: seq<(Tile, Action)>, keys: set<int>, c: Config, onDisk: Tile -> bool)
    requires ConfigOk(c) && LogFits(log, keys, c, onDisk)
    ensures Count(log, Enqueued) > 0 ==> DoRender(c)
  {
    if Count(log, Enqueued) > 0 {
      var i := SomeCounted(log, Enqueued);
      WorkersCoverTheNeed(c, log[i].0.z + EXCESS);
    }
  }

  function Tiles(log: seq<(Tile, Action)>): (ms: seq<Tile>)
    ensures |ms| == |log| && forall i :: 0 <= i < |log| ==> ms[i] == log[i].0
  {
    seq(|log|, i requires 0 <= i < |log| => log[i].0)
  }

  /** What was done to each metatile: nothing exactly if it is not there; else it was deleted exactly
      from the one threshold on, touched exactly from the other on below that, and handed to the
      workers below both. */
  ghost predicate DoneAsAsked(log: seq<(Tile, Action)>, c: Config, onDisk: Tile -> bool) {
    forall i :: 0 <= i < |log| ==>
      var (m, a) := log[i];
      var delete := c.deleteFrom.Some? && m.z + 3 >= c.deleteFrom.value;
      var touch := c.touchFrom.Some? && m.z + 3 >= c.touchFrom.value;
      && (a == Ignored <==> !onDisk(m))
      && (a == Deleted <==> onDisk(m) && delete)
      && (a == Touched <==> onDisk(m) && touch && !delete)
      && (a == Enqueued <==> onDisk(m) && !touch && !delete)
  }

  lemma LogDoneAsAsked(log: seq<(Tile, Action)>, keys: set<int>, c: Config, onDisk: Tile -> bool)
    requires LogFits(log, keys, c, onDisk)
    ensures DoneAsAsked(log, c, onDisk)
  {
    hide TileKey;
  }

  class Expirer {
    const cfg: Config
    /** Whether the store has a metatile. */
    const onDisk: Tile -> bool
    /** tile_requested: the packed keys of the metatiles dealt with. */
    var requested: set<int>
    var numAll: nat
    var numRender: nat
    var numUnlink: nat
    var numTouch: nat
    var numIgnore: nat
    /** What was done, in order. */
    ghost var log: seq<(Tile, Action)>

    ghost predicate CountsFit()
      reads this
    {
      && numAll == |log| && numUnlink == Count(log, Deleted) && numTouch == Count(log, Touched)
      && numRender == Count(log, Enqueued) && numIgnore == Count(log, Ignored)
    }

    ghost predicate Valid()
      reads this
    {
      ConfigOk(cfg) && LogFits(log, requested, cfg, onDisk) && CountsFit()
    }

    constructor (cfg: Config, onDisk: Tile -> bool)
      requires ConfigOk(cfg)
      ensures Valid() && this.cfg == cfg && this.onDisk == onDisk && requested == {} && log == []
    {
      this.cfg, this.onDisk := cfg, onDisk;
      requested, log := {}, [];
      numAll, numRender, numUnlink, numTouch, numIgnore := 0, 0, 0, 0, 0;
    }

    /** Mark a metatile and deal with it. */
    method Process(t: Tile)
      requires Valid() && TileKey(Meta(t)) !in requested && t.z >= MinZoom(cfg)
      modifies this
      ensures Valid() && requested == old(requested) + {TileKey(Meta(t))}
      ensures log == old(log) + [(Meta(t), ActionFor(cfg, t.z, onDisk(Meta(t))))]
    {
      hide LogFits, TileKey, Count;
      ghost var e := (Meta(t), ActionFor(cfg, t.z, onDisk(Meta(t))));
      LogGrows(log, requested, cfg, onDisk, t);
      CountGrows(log, e, Deleted);
      CountGrows(log, e, Touched);
      CountGrows(log, e, Enqueued);
      CountGrows(log, e, Ignored);
      requested := requested + {TileKey(Meta(t))};
      numAll := numAll + 1;
      if onDisk(Meta(t)) {
        if cfg.deleteFrom.Some? && t.z >= cfg.deleteFrom.value {
          numUnlink := numUnlink + 1;
        } else if cfg.touchFrom.Some? && t.z >= cfg.touchFrom.value {
          numTouch := numTouch + 1;
        } else if DoRender(cfg) {
          numRender := numRender + 1;
        }
      } else {
        numIgnore := numIgnore + 1;
      }
      log := log + [e];
    }

    /** One line of input: bring it to the highest level, then walk up until the lowest level
        or a metatile dealt with before. */
    method ExpandLine(line: Tile)
      requires Valid()
      modifies this
      ensures Valid() && requested == MarkUp(old(requested), Normal(line, cfg.maxZoom), MinZoom(cfg))
      ensures Tiles(log) == old(Tiles(log)) + DealUp(old(requested), Normal(line, cfg.maxZoom), MinZoom(cfg))
      ensures old(log) <= log
    {
      hide LogFits, ActionFor, TileKey, Expirer.CountsFit, ConfigOk;
      var z, x, y := line.z, line.x, line.y;
      while z > cfg.maxZoom
        invariant Normal(Tile(z, x, y), cfg.maxZoom) == Normal(line, cfg.maxZoom)
      {
        x, y, z := x / 2, y / 2, z - 1;
      }
      while z < cfg.maxZoom
        invariant Normal(Tile(z, x, y), cfg.maxZoom) == Normal(line, cfg.maxZoom)
        invariant z <= cfg.maxZoom
      {
        x, y, z := x * 2, y * 2, z + 1;
      }
      while z >= MinZoom(cfg)
        invariant Valid() && old(log) <= log
        invariant MarkUp(requested, Tile(z, x, y), MinZoom(cfg)) ==
                  MarkUp(old(requested), Normal(line, cfg.maxZoom), MinZoom(cfg))
        invariant Tiles(log) + DealUp(requested, Tile(z, x, y), MinZoom(cfg)) ==
                  old(Tiles(log)) + DealUp(old(requested), Normal(line, cfg.maxZoom), MinZoom(cfg))
      {
        if TileKey(Meta(Tile(z, x, y))) in requested {
          break;
        }
        ghost var tiles := Tiles(log);
        Process(Tile(z, x, y));
        assert Tiles(log) == tiles + [Meta(Tile(z, x, y))];
        z, x, y := z - 1, x / 2, y / 2;
      }
    }

    /** The whole input: each metatile marked is dealt with once, and every one is accounted
        for. */
    method Expand(lines: seq<Tile>)
      requires Valid() && requested == {} && log == []
      modifies this
      ensures Valid() && requested == MarkAll(lines, cfg.maxZoom, MinZoom(cfg))
      ensures numAll == |requested| == numUnlink + numTouch + numRender + numIgnore
      ensures numRender > 0 ==> DoRender(cfg)
      ensures Tiles(log) == DealAll(lines, cfg.maxZoom, MinZoom(cfg))
      ensures Elems(Tiles(log)) == FullExpansion(lines, cfg.maxZoom, MinZoom(cfg)) <==>
              KeysTellApart(FullExpansion(lines, cfg.maxZoom, MinZoom(cfg)))
      ensures (forall i :: 0 <= i < |lines| ==> Fits(lines[i], cfg.maxZoom)) ==>
                Elems(Tiles(log)) == FullExpansion(lines, cfg.maxZoom, MinZoom(cfg))
      ensures NoDup(Tiles(log)) && DoneAsAsked(log, cfg, onDisk)
      ensures numUnlink == Count(log, Deleted) && numTouch == Count(log, Touched) && numRender == Count(log, Enqueued)
      ensures (forall i :: 0 <= i < |lines| ==> Fits(lines[i], cfg.maxZoom)) ==>
                var min := if cfg.minZoom < 3 then 3 else cfg.minZoom;
                forall m :: m in Tiles(log) <==> Affected(m, lines, cfg.maxZoom, min)
    {
      hide LogFits, DoneAsAsked, Affected, KeysTellApart, ActionFor, Count, Fits, MarkUp, DealUp, DoRender,
           FullExpansion, Normal, Elems, NoDup;
      for k := 0 to |lines|
        invariant Valid() && requested == MarkAll(lines[..k], cfg.maxZoom, MinZoom(cfg))
        invariant Tiles(log) == DealAll(lines[..k], cfg.maxZoom, MinZoom(cfg))
      {
        ExpandLine(lines[k]);
        assert lines[..k + 1][..k] == lines[..k];
      }
      assert lines[..|lines|] == lines;
      EveryActionCounted(log);
      LogSize(log, requested, cfg, onDisk);
      EnqueuedNeedsWorkers(log, requested, cfg, onDisk);
      EarlyExitIsRightExactly(lines, cfg.maxZoom, MinZoom(cfg));
      DealtOnce(lines, cfg.maxZoom, MinZoom(cfg));
      if forall i :: 0 <= i < |lines| ==> Fits(lines[i], cfg.maxZoom) {
        EarlyExitIsFullExpansion(lines, cfg.maxZoom, MinZoom(cfg));
        forall m
          ensures m in DealAll(lines, cfg.maxZoom, MinZoom(cfg)) <==> Affected(m, lines, cfg.maxZoom, MinZoom(cfg))
        {
          DealtWithExactly(lines, cfg.maxZoom, MinZoom(cfg), m);
        }
      }
      LogDoneAsAsked(log, requested, cfg, onDisk);
    }
  }

  lemma DealtOnce(lines: seq<Tile>, max: int, min: int)
    ensures NoDup(DealAll(lines, max, min))
  {
    hide TileKey, DealAll;
    DealAllMarks(lines, max, min);
  }

  lemma SomeCounted(log: seq<(Tile, Action)>, a: Action) returns (i: nat)
    requires Count(log, a) > 0
    ensures i < |log| && log[i].1 == a
  {
    i := |log| - 1;
    if log[i].1 != a {
      i := SomeCounted(log[..i], a);
    }
  }

  lemma {:induction false} KeysOfLog(log: seq<(Tile, Action)>)
    requires forall i, j :: 0 <= i < j < |log| ==> TileKey(log[i].0) != TileKey(log[j].0)
    ensures |set i | 0 <= i < |log| :: TileKey(log[i].0)| == |log|
  {
    hide TileKey;
    if log != [] {
      var n := |log| - 1;
      KeysOfLog(log[..n]);
      var rest := set i | 0 <= i < n :: TileKey(log[..n][i].0);
      assert (set i | 0 <= i < |log| :: TileKey(log[i].0)) == rest + {TileKey(log[n].0)};
      assert TileKey(log[n].0) !in rest;
    }
  }
}
