/** The file store as a whole: the daemon writes metatiles to the files their paths name, the
    Apache module finds the file of a tile by its path and reads the tile out of it. */
module Store {
  import opened Bytes
  import opened Protocol
  import opened Metatile
  import opened TilePath

  // ------------------------------------------------------------ after any number of writes

  datatype Write = Write(t: TileId, data: seq<Byte>)

  /** Where file_metatile_write and file_tile_read look. */
  function FileOf(dir: string, t: TileId): string {
    Printed(PathTo(dir, t), PATH_MAX)
  }

  /** A tile that can be told by that. */
  predicate Nameable(dir: string, t: TileId) {
    Sound(t) && |PathTo(dir, t)| < PATH_MAX
  }

  ghost predicate AllNameable(dir: string, writes: seq<Write>) {
    forall i :: 0 <= i < |writes| ==> Nameable(dir, writes[i].t)
  }

  /** The files after the writes, on a directory that was empty. */
  function Written(dir: string, writes: seq<Write>): map<string, seq<Byte>> {
    if writes == [] then map[]
    else
      var w := writes[|writes| - 1];
      Written(dir, writes[..|writes| - 1])[FileOf(dir, w.t) := w.data]
  }

  /** What was last written for the metatile of a tile. */
  function LastFor(writes: seq<Write>, t: TileId): Option<seq<Byte>> {
    if writes == [] then None
    else
      var w := writes[|writes| - 1];
      if SameMetatile(w.t, t) then Some(w.data) else LastFor(writes[..|writes| - 1], t)
  }

  /** Whatever was written and in whatever order, the file a tile is looked for in holds what was
      last written for its own metatile, and is missing if nothing was. */
  lemma {:induction false} FileIsLastWrite(dir: string, writes: seq<Write>, t: TileId)
    requires AllNameable(dir, writes) && Nameable(dir, t)
    ensures var path, last := PathTo(dir, t), LastFor(writes, t);
            && (path in Written(dir, writes) <==> last.Some?)
            && (last.Some? ==> Written(dir, writes)[path] == last.value)
  {
    hide PathTo, Sound, SameMetatile;
    if writes != [] {
      var w := writes[|writes| - 1];
      FileIsLastWrite(dir, writes[..|writes| - 1], t);
      assert Nameable(dir, w.t);
      PathIdentifiesMetatile(dir, w.t, t);
    }
  }

  /** A tile's place in the file of its corner is that of its cell in the square. */
  lemma PlaceOfTile(x: int, y: int)
    ensures Slot(Corner(x), Corner(y), x % METATILE * METATILE + y % METATILE) == MetaOffset(x, y)
  {
    hide MetaOffset;
    SlotOf(Corner(x), Corner(y), x % METATILE, y % METATILE);
    assert Corner(x) + x % METATILE == x && Corner(y) + y % METATILE == y;
  }

  /** The last metatile written for a tile is the square `tile`, saved. */
  ghost predicate LastSaved(writes: seq<Write>, t: TileId, tile: seq<seq<seq<Byte>>>) {
    && Square(tile) && Start(CellsOf(tile), CELLS) <= INT_MAX && LastFor(writes, t).Some?
    && IsLayout(LastFor(writes, t).value, Corner(t.x), Corner(t.y), t.z, CellsOf(tile))
  }

  /** Reading a tile out of a file then yields its cell in the square, or -6 if that exceeds the
      buffer. */
  function Served(tile: seq<seq<seq<Byte>>>, t: TileId, sz: nat): (int, seq<Byte>)
    requires Square(tile)
  {
    var cell := tile[t.x % METATILE][t.y % METATILE];
    if |cell| > sz then (-6, []) else (|cell|, cell)
  }

  /** End to end: if the last metatile written for a tile is a saved square, the file the tile is
      looked for in is there and serves the cell (x mod 8, y mod 8) of that square. */
  lemma TileIsServed(dir: string, writes: seq<Write>, t: TileId, tile: seq<seq<seq<Byte>>>, sz: nat)
    requires AllNameable(dir, writes) && Nameable(dir, t) && LastSaved(writes, t, tile)
    ensures FileOf(dir, t) in Written(dir, writes)
    ensures Expected(Written(dir, writes)[FileOf(dir, t)], PlaceIn(t), sz) == Served(tile, t, sz)
  {
    hide PathTo, IsLayout, Expected, MetaOffset, Slot, Sound, Start, Corner, Written, LastFor;
    FileIsLastWrite(dir, writes, t);
    PlaceOfTile(t.x, t.y);
    var k := t.x % METATILE * METATILE + t.y % METATILE;
    ReadsBack(LastFor(writes, t).value, Corner(t.x), Corner(t.y), t.z, CellsOf(tile), k, sz);
  }

  // ------------------------------------------------------------ the directory

  predicate EndsInMeta(path: string) {
    |path| >= 5 && path[|path| - 5..] == ".meta"
  }

  lemma EndOfBoth(a: string, b: string)
    requires EndsInMeta(b)
    ensures EndsInMeta(a + b)
  {
    assert (a + b)[|a + b| - 5..] == b[|b| - 5..];
  }

  lemma PathEndsInMeta(dir: string, t: TileId)
    ensures EndsInMeta(PathTo(dir, t))
  {
    hide PrintInts, Levels, EndsInMeta;
    assert EndsInMeta(".meta") by { MetaEndsInMeta(); }
    EndOfBoth("." + t.options, ".meta");
    EndOfBoth(PrintInts([t.z] + Levels(t.x, t.y)), Suffix(t.options));
    EndOfBoth("/" + t.xmlconfig, PrintInts([t.z] + Levels(t.x, t.y)) + Suffix(t.options));
    EndOfBoth(dir, "/" + t.xmlconfig + (PrintInts([t.z] + Levels(t.x, t.y)) + Suffix(t.options)));
  }

  lemma MetaEndsInMeta()
    ensures EndsInMeta(".meta")
  {
  }

  /** The name a thread gives a metatile until it is complete. */
  function Temporary(path: string, thread: nat): string {
    path + "." + Dec(thread)
  }

  lemma TemporaryIsNoMetatile(path: string, thread: nat)
    ensures !EndsInMeta(Temporary(path, thread)) && Temporary(path, thread) != path
  {
    hide Dec;
    var tmp, d := Temporary(path, thread), Dec(thread);
    assert tmp[|tmp| - 1] == d[|d| - 1];
  }

  /** The directory has the metatiles of these writes, and perhaps other files. */
  ghost predicate Holds(files: map<string, seq<Byte>>, dir: string, writes: seq<Write>) {
    forall p :: EndsInMeta(p) ==>
      && (p in files <==> p in Written(dir, writes))
      && (p in files ==> files[p] == Written(dir, writes)[p])
  }

  lemma HoldsOneMore(files: map<string, seq<Byte>>, dir: string, writes: seq<Write>, w: Write, tmp: string)
    requires Holds(files, dir, writes) && !EndsInMeta(tmp)
    ensures Holds((files - {tmp})[FileOf(dir, w.t) := w.data], dir, writes + [w])
  {
    hide EndsInMeta, FileOf;
    assert (writes + [w])[..|writes + [w]| - 1] == writes;
  }

  /** A file system, which may fail if it is flaky. */
  class Disk {
    const dir: string
    const flaky: bool
    var files: map<string, seq<Byte>>
    ghost var writes: seq<Write>

    ghost predicate Valid()
      reads this
    {
      Holds(files, dir, writes)
    }

    constructor (dir: string, flaky: bool)
      ensures Valid() && this.dir == dir && this.flaky == flaky && writes == []
    {
      this.dir, this.flaky, files, writes := dir, flaky, map[], [];
    }

    /** Whether a call to the system fails. */
    method Fails() returns (b: bool)
      ensures b ==> flaky
    {
      b := *;
      b := b && flaky;
    }

    /** file_metatile_write: into a file of another name first, which then takes the place of the
        old metatile.  A write that fails may leave that file behind, but no half a metatile. */
    method WriteMetatile(t: TileId, thread: nat, buf: seq<Byte>) returns (code: int)
      requires Valid()
      modifies this
      ensures Valid() && (code == |buf| || (code == -1 && flaky))
      ensures writes == old(writes) + if code == |buf| then [Write(t, buf)] else []
      ensures var path, tmp := FileOf(dir, t), Temporary(FileOf(dir, t), thread);
              files - {tmp} == if code == |buf| then (old(files) - {tmp})[path := buf] else old(files) - {tmp}
    {
      hide PathTo, Holds, Temporary;
      var path, _ := XyzoToMeta(PATH_MAX, dir, t.xmlconfig, t.options, t.x, t.y, t.z);
      assert path == FileOf(dir, t) by { FileOfIs(dir, t); }
      var tmp := Temporary(path, thread);
      TemporaryIsNoMetatile(path, thread);
      var noDirectory := Fails();
      var noFile := Fails();
      if noDirectory || noFile {
        return -1;
      }
      var short := Fails();
      if short {
        var kept: nat :| kept == 0 || kept < |buf|;
        files := files[tmp := buf[..kept]];
        HoldsBut(old(files), files, dir, writes, tmp);
        return -1;
      }
      var noRename := Fails();
      if noRename {
        files := files - {tmp};
        HoldsBut(old(files), files, dir, writes, tmp);
        return -1;
      }
      HoldsOneMore(files, dir, writes, Write(t, buf), tmp);
      files := (files - {tmp})[path := buf];
      writes := writes + [Write(t, buf)];
      return |buf|;
    }

    /** file_tile_read.  If what was last written for the tile is a saved square, the reader gets
        the tile's cell of it. */
    method ReadTileOf(t: TileId, buf: array<Byte>, ghost tile: seq<seq<seq<Byte>>>) returns (code: int)
      requires Valid()
      modifies buf
      ensures var path := FileOf(dir, t);
              if path !in files then code == -1
              else
                var r := Expected(files[path], PlaceIn(t), buf.Length);
                && (code == r.0 || (flaky && code in {-1, -2, -8}))
                && (code >= 0 ==> code <= buf.Length && buf[..code] == r.1)
      ensures AllNameable(dir, writes) && Nameable(dir, t) && LastSaved(writes, t, tile) ==>
                var r := Served(tile, t, buf.Length);
                && (code == r.0 || (flaky && code in {-1, -2, -8}))
                && (code >= 0 ==> code <= buf.Length && buf[..code] == r.1)
    {
      hide Expected, MetaOffset, PathTo, Written, LastSaved, Sound, EndsInMeta;
      var path, _ := XyzoToMeta(PATH_MAX, dir, t.xmlconfig, t.options, t.x, t.y, t.z);
      assert path == FileOf(dir, t) by { FileOfIs(dir, t); }
      if AllNameable(dir, writes) && Nameable(dir, t) && LastSaved(writes, t, tile) {
        TileIsServed(dir, writes, t, tile, buf.Length);
        PathEndsInMeta(dir, t);
      }
      if path !in files {
        return -1;
      }
      var cannotOpen := Fails();
      if cannotOpen {
        return -1;
      }
      var f := new File(files[path], flaky);
      var compressed;
      code, compressed := Metatile.ReadTile(f, t.x, t.y, buf);
    }
  }

  lemma FileOfIs(dir: string, t: TileId)
    ensures FileOf(dir, t) == Printed(PathOf(dir, t.xmlconfig, t.options, t.x, t.y, t.z), PATH_MAX)
  {
  }

  /** A file that is no metatile may come and go. */
  lemma HoldsBut(files: map<string, seq<Byte>>, files': map<string, seq<Byte>>, dir: string, writes: seq<Write>,
                 tmp: string)
    requires Holds(files, dir, writes) && !EndsInMeta(tmp) && files - {tmp} == files' - {tmp}
    ensures Holds(files', dir, writes)
  {
    hide EndsInMeta, Written;
    forall p | p != tmp ensures (p in files <==> p in files') && (p in files ==> files[p] == files'[p]) {
      assert p in files - {tmp} <==> p in files' - {tmp};
      assert p in files ==> files[p] == (files - {tmp})[p] == (files' - {tmp})[p];
    }
  }
}
