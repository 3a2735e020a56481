/** The file format of a metatile: a header, a table of 64 places, and the 64 tiles of an 8x8
    square one after the other.  The daemon writes it; the Apache module reads single tiles
    out of it, with reads that may come back short. */
module Metatile {
  import opened Bytes
  import opened Protocol

  const META_MAGIC: seq<Byte> := [0x4D, 0x45, 0x54, 0x41]
  const META_MAGIC_COMPRESSED: seq<Byte> := [0x4D, 0x45, 0x54, 0x5A]
  const CELLS := 64
  /** sizeof(struct meta_layout) plus 64 table entries of two ints. */
  const HEADER_SIZE := 532

  // ------------------------------------------------------------ where a tile goes

  /** The place of a tile in its metatile's table: (x & 7) * 8 + (y & 7). */
  function MetaOffset(x: int, y: int): (o: nat)
    ensures o < CELLS
  {
    x % METATILE * METATILE + y % METATILE
  }

  /** The k-th tile in the writer's order, column by column, goes to this place. */
  function Slot(x: int, y: int, k: nat): (o: nat)
    ensures o < CELLS
  {
    MetaOffset(x + k / METATILE, y + k % METATILE)
  }

  /** The 64 tiles of a metatile and the 64 places are in one-to-one correspondence. */
  lemma SlotInjective(x: int, y: int, k: nat, k': nat)
    requires k < CELLS && k' < CELLS && Slot(x, y, k) == Slot(x, y, k')
    ensures k == k'
  {
    SameShift(x, k / 8, k' / 8);
    SameShift(y, k % 8, k' % 8);
  }

  lemma SameShift(x: int, a: int, b: int)
    requires 0 <= a < 8 && 0 <= b < 8 && (x + a) % 8 == (x + b) % 8
    ensures a == b
  {
    assert x + a == 8 * ((x + a) / 8) + (x + a) % 8 && x + b == 8 * ((x + b) / 8) + (x + b) % 8;
  }

  lemma SlotOnto(x: int, y: int, o: nat) returns (k: nat)
    requires o < CELLS
    ensures k < CELLS && Slot(x, y, k) == o
  {
    var dx, dy := (o / 8 - x) % 8, (o % 8 - y) % 8;
    ModShift(x, o / 8);
    ModShift(y, o % 8);
    k := dx * 8 + dy;
    assert k / 8 == dx && k % 8 == dy;
  }

  lemma ModShift(x: int, a: int)
    requires 0 <= a < 8
    ensures (x + (a - x) % 8) % 8 == a
  {
    var q := (a - x) / 8;
    assert x + (a - x) % 8 == a - 8 * q;
  }

  // ------------------------------------------------------------ the layout

  function Start(cells: seq<seq<Byte>>, k: nat): (s: nat)
    requires k <= |cells|
    ensures HEADER_SIZE <= s
  {
    if k == 0 then HEADER_SIZE else Start(cells, k - 1) + |cells[k - 1]|
  }

  function Payload(cells: seq<seq<Byte>>, k: nat): seq<Byte>
    requires k <= |cells|
  {
    if k == 0 then [] else Payload(cells, k - 1) + cells[k - 1]
  }

  lemma {:induction false} PayloadAt(cells: seq<seq<Byte>>, n: nat, k: nat)
    requires k < n <= |cells|
    ensures |Payload(cells, n)| == Start(cells, n) - HEADER_SIZE && Start(cells, k) + |cells[k]| <= Start(cells, n)
    ensures Payload(cells, n)[Start(cells, k) - HEADER_SIZE..Start(cells, k) - HEADER_SIZE + |cells[k]|] == cells[k]
  {
    PayloadSize(cells, n - 1);
    if k < n - 1 {
      PayloadAt(cells, n - 1, k);
    }
  }

  lemma {:induction false} PayloadSize(cells: seq<seq<Byte>>, n: nat)
    requires n <= |cells|
    ensures |Payload(cells, n)| == Start(cells, n) - HEADER_SIZE
  {
    if n > 0 {
      PayloadSize(cells, n - 1);
    }
  }

  datatype Place = Place(offset: int, size: int)

  function TableBytes(table: seq<Place>): (s: seq<Byte>)
    ensures |s| == 8 * |table|
  {
    if table == [] then []
    else
      var n := |table| - 1;
      TableBytes(table[..n]) + Le32(table[n].offset) + Le32(table[n].size)
  }

  lemma {:induction false} TableBytesAt(table: seq<Place>, i: nat)
    requires i < |table|
    ensures TableBytes(table)[8 * i..8 * i + 4] == Le32(table[i].offset)
    ensures TableBytes(table)[8 * i + 4..8 * i + 8] == Le32(table[i].size)
  {
    var n := |table| - 1;
    if i < n {
      TableBytesAt(table[..n], i);
      assert TableBytes(table)[8 * i..8 * i + 4] == TableBytes(table[..n])[8 * i..8 * i + 4];
      assert TableBytes(table)[8 * i + 4..8 * i + 8] == TableBytes(table[..n])[8 * i + 4..8 * i + 8];
    }
  }

  function HeaderBytes(x: int, y: int, z: int): (s: seq<Byte>)
    ensures |s| == 20
  {
    META_MAGIC + Le32(CELLS) + Le32(x) + Le32(y) + Le32(z)
  }

  /** The first `n` tiles have their places in the table. */
  ghost predicate Placed(table: seq<Place>, x: int, y: int, cells: seq<seq<Byte>>, n: nat)
    requires |table| == CELLS && n <= |cells|
  {
    forall k :: 0 <= k < n ==> table[Slot(x, y, k)] == Place(Start(cells, k), |cells[k]|)
  }

  /** A file laid out as the format says: each place of the table tells where a tile is. */
  ghost predicate IsLayout(file: seq<Byte>, x: int, y: int, z: int, cells: seq<seq<Byte>>)
    requires |cells| == CELLS
  {
    exists table: seq<Place> {:trigger TableBytes(table)} ::
      && |table| == CELLS && Placed(table, x, y, cells, CELLS)
      && file == HeaderBytes(x, y, z) + TableBytes(table) + Payload(cells, CELLS)
  }

  // ------------------------------------------------------------ writing

  predicate Square(tile: seq<seq<seq<Byte>>>) {
    |tile| == METATILE && forall i :: 0 <= i < METATILE ==> |tile[i]| == METATILE
  }

  /** The tiles in the writer's order. */
  function CellsOf(tile: seq<seq<seq<Byte>>>): (cells: seq<seq<Byte>>)
    requires Square(tile)
    ensures |cells| == CELLS
    ensures forall i, j :: 0 <= i < METATILE && 0 <= j < METATILE ==> cells[i * METATILE + j] == tile[i][j]
  {
    seq(CELLS, k requires 0 <= k < CELLS => tile[k / METATILE][k % METATILE])
  }

  lemma SlotOf(x: int, y: int, ox: nat, oy: nat)
    requires ox < METATILE && oy < METATILE
    ensures Slot(x, y, ox * METATILE + oy) == MetaOffset(x + ox, y + oy)
  {
    assert (ox * METATILE + oy) / METATILE == ox && (ox * METATILE + oy) % METATILE == oy;
  }

  lemma PlacedNext(table: seq<Place>, x: int, y: int, cells: seq<seq<Byte>>, n: nat)
    requires |table| == CELLS && n < |cells| == CELLS && Placed(table, x, y, cells, n)
    ensures Placed(table[Slot(x, y, n) := Place(Start(cells, n), |cells[n]|)], x, y, cells, n + 1)
  {
    hide Slot, Start;
    forall k | 0 <= k < n ensures Slot(x, y, k) != Slot(x, y, n) {
      if Slot(x, y, k) == Slot(x, y, n) {
        SlotInjective(x, y, k, n);
      }
    }
  }

  /** The first part of metaTile::save: who goes where. */
  method FillTable(x: int, y: int, tile: seq<seq<seq<Byte>>>) returns (table: array<Place>, offset: nat)
    requires Square(tile)
    ensures fresh(table) && table.Length == CELLS
    ensures offset == Start(CellsOf(tile), CELLS) && Placed(table[..], x, y, CellsOf(tile), CELLS)
  {
    hide Slot, MetaOffset, CellsOf, Placed;
    ghost var cells := CellsOf(tile);
    table := new Place[CELLS](_ => Place(0, 0));
    offset := HEADER_SIZE;
    assert Placed(table[..], x, y, cells, 0) by { NothingPlaced(table[..], x, y, cells); }
    for ox := 0 to METATILE
      invariant offset == Start(cells, ox * METATILE) && Placed(table[..], x, y, cells, ox * METATILE)
    {
      for oy := 0 to METATILE
        invariant offset == Start(cells, ox * METATILE + oy) && Placed(table[..], x, y, cells, ox * METATILE + oy)
      {
        ghost var n := ox * METATILE + oy;
        ghost var before := table[..];
        SlotOf(x, y, ox, oy);
        PlacedNext(before, x, y, cells, n);
        var mt := MetaOffset(x + ox, y + oy);
        table[mt] := Place(offset, |tile[ox][oy]|);
        offset := offset + |tile[ox][oy]|;
        assert table[..] == before[mt := Place(Start(cells, n), |cells[n]|)];
      }
    }
  }

  lemma NothingPlaced(table: seq<Place>, x: int, y: int, cells: seq<seq<Byte>>)
    requires |table| == CELLS
    ensures Placed(table, x, y, cells, 0)
  {
  }

  /** The last part: copy the tiles to their places. */
  method CopyTiles(buf: array<Byte>, x: int, y: int, tile: seq<seq<seq<Byte>>>, table: seq<Place>,
                   ghost head: seq<Byte>)
    requires Square(tile) && |table| == CELLS && Placed(table, x, y, CellsOf(tile), CELLS)
    requires |head| == HEADER_SIZE && buf.Length == Start(CellsOf(tile), CELLS) && buf[..HEADER_SIZE] == head
    modifies buf
    ensures buf[..] == head + Payload(CellsOf(tile), CELLS)
  {
    hide MetaOffset, CellsOf, Slot, Start, Payload, Placed;
    ghost var cells := CellsOf(tile);
    assert Start(cells, 0) == HEADER_SIZE && head + Payload(cells, 0) == head by { FirstOf(cells, head); }
    for ox := 0 to METATILE
      invariant Start(cells, ox * METATILE) <= buf.Length
      invariant buf[..Start(cells, ox * METATILE)] == head + Payload(cells, ox * METATILE)
    {
      for oy := 0 to METATILE
        invariant Start(cells, ox * METATILE + oy) <= buf.Length
        invariant buf[..Start(cells, ox * METATILE + oy)] == head + Payload(cells, ox * METATILE + oy)
      {
        ghost var n := ox * METATILE + oy;
        SlotOf(x, y, ox, oy);
        PlaceOf(cells, table, x, y, n);
        NextOf(cells, head, n);
        Copy(buf, table[MetaOffset(x + ox, y + oy)].offset, tile[ox][oy]);
      }
    }
    assert buf[..] == buf[..Start(cells, CELLS)];
  }

  lemma FirstOf(cells: seq<seq<Byte>>, head: seq<Byte>)
    ensures Start(cells, 0) == HEADER_SIZE && head + Payload(cells, 0) == head
  {
  }

  lemma PlaceOf(cells: seq<seq<Byte>>, table: seq<Place>, x: int, y: int, n: nat)
    requires n < |cells| == CELLS == |table| && Placed(table, x, y, cells, CELLS)
    ensures table[Slot(x, y, n)] == Place(Start(cells, n), |cells[n]|)
  {
    hide Slot, Start;
  }

  lemma NextOf(cells: seq<seq<Byte>>, head: seq<Byte>, n: nat)
    requires n < |cells|
    ensures Start(cells, n) + |cells[n]| == Start(cells, n + 1) <= Start(cells, |cells|)
    ensures head + Payload(cells, n + 1) == head + Payload(cells, n) + cells[n]
  {
    StartGrows(cells, n + 1, |cells|);
    assert head + (Payload(cells, n) + cells[n]) == head + Payload(cells, n) + cells[n];
  }

  /** metaTile::save, up to handing the buffer to the store. */
  method Save(x: int, y: int, z: int, tile: seq<seq<seq<Byte>>>) returns (buf: array<Byte>)
    requires Square(tile) && Start(CellsOf(tile), CELLS) <= INT_MAX
    ensures fresh(buf) && IsLayout(buf[..], x, y, z, CellsOf(tile)) && RangesTile(buf[..])
  {
    hide MetaOffset, CellsOf, Slot, HeaderBytes, TableBytes, Payload, Placed, RangesTile;
    var table, offset := FillTable(x, y, tile);
    var t := table[..];
    buf := new Byte[offset](_ => 0);
    Copy(buf, 0, HeaderBytes(x, y, z));
    Copy(buf, 20, TableBytes(t));
    assert buf[..HEADER_SIZE] == HeaderBytes(x, y, z) + TableBytes(t);
    CopyTiles(buf, x, y, tile, t, HeaderBytes(x, y, z) + TableBytes(t));
    LayoutOf(buf[..], x, y, z, CellsOf(tile), t);
    TilesTileTheFile(buf[..], x, y, z, CellsOf(tile));
  }

  lemma LayoutOf(file: seq<Byte>, x: int, y: int, z: int, cells: seq<seq<Byte>>, table: seq<Place>)
    requires |cells| == CELLS == |table| && Placed(table, x, y, cells, CELLS)
    requires file == HeaderBytes(x, y, z) + TableBytes(table) + Payload(cells, CELLS)
    ensures IsLayout(file, x, y, z, cells)
  {
  }

  lemma {:induction false} StartGrows(cells: seq<seq<Byte>>, k: nat, n: nat)
    requires k <= n <= |cells|
    ensures Start(cells, k) <= Start(cells, n)
  {
    if k < n {
      StartGrows(cells, k, n - 1);
    }
  }

  // ------------------------------------------------------------ reading

  /** An open file.  A flaky one may fail any read. */
  class File {
    const data: seq<Byte>
    const flaky: bool
    var at: nat

    constructor (data: seq<Byte>, flaky: bool)
      ensures this.data == data && this.flaky == flaky && at == 0
    {
      this.data, this.flaky, at := data, flaky, 0;
    }

    /** read(2): some of the bytes asked for, at least one unless at the end of the file. */
    method Read(dst: array<Byte>, pos: nat, len: nat) returns (got: int)
      requires 0 < len && pos + len <= dst.Length
      modifies this`at, dst
      ensures got <= len && (got < 0 ==> flaky) && (got == 0 <==> got >= 0 && old(at) >= |data|)
      ensures got > 0 ==> at == old(at) + got <= |data| && dst[..pos + got] == old(dst[..pos]) + data[old(at)..at]
      ensures got <= 0 ==> at == old(at) && dst[..] == old(dst[..])
    {
      var fails: bool := *;
      if flaky && fails {
        return -1;
      }
      if at >= |data| {
        return 0;
      }
      got :| 1 <= got <= len && at + got <= |data|;
      Copy(dst, pos, data[at..at + got]);
      at := at + got;
    }
  }

  /** The bytes a read of `want` bytes at `at` can get altogether. */
  function Available(data: seq<Byte>, at: nat, want: nat): (s: seq<Byte>)
    ensures |s| <= want
  {
    if at >= |data| then [] else data[at..Min(at + want, |data|)]
  }

  /** Read on until `want` bytes are there or the file ends. */
  method ReadOn(f: File, dst: array<Byte>, want: nat) returns (pos: nat, failed: bool)
    requires want <= dst.Length
    modifies f`at, dst
    ensures failed ==> f.flaky
    ensures !failed ==> var s := Available(f.data, old(f.at), want); pos == |s| && dst[..pos] == s
  {
    pos := 0;
    while pos < want
      invariant pos <= want && f.at == old(f.at) + pos
      invariant pos > 0 ==> f.at <= |f.data| && dst[..pos] == f.data[old(f.at)..f.at]
      decreases want - pos
    {
      ghost var here := f.at;
      var got := f.Read(dst, pos, want - pos);
      assert got > 0 ==> f.data[old(f.at)..here] + f.data[here..f.at] == f.data[old(f.at)..f.at];
      if got < 0 {
        return pos, true;
      } else if got > 0 {
        pos := pos + got;
      } else {
        break;
      }
    }
    return pos, false;
  }

  /** The entry of the table in a file's header. */
  function EntryAt(data: seq<Byte>, place: nat): Place
    requires place < CELLS && |data| >= HEADER_SIZE
  {
    Place(FromLe32(data[20 + 8 * place..24 + 8 * place]), FromLe32(data[24 + 8 * place..28 + 8 * place]))
  }

  /** What file_tile_read returns for a file with these contents: a code, and on success the
      bytes of the tile. */
  function Expected(data: seq<Byte>, place: nat, sz: nat): (int, seq<Byte>)
    requires place < CELLS
  {
    if |data| < HEADER_SIZE then (-3, [])
    else if data[..4] != META_MAGIC && data[..4] != META_MAGIC_COMPRESSED then (-4, [])
    else if FromLe32(data[4..8]) != CELLS then (-5, [])
    else
      var Place(offset, size) := EntryAt(data, place);
      // a negative int turns into a huge size_t, or a negative offset for lseek
      if size < 0 || size > sz then (-6, [])
      else if offset < 0 then (-7, [])
      else (|Available(data, offset, size)|, Available(data, offset, size))
  }

  /** A header of the right length that starts with these four characters. */
  predicate StartsWith(data: seq<Byte>, magic: string)
    requires |magic| == 4
  {
    |data| >= 532 && forall i :: 0 <= i < 4 ==> data[i] == magic[i] as int
  }

  /** Which files are turned away with which code, and what any other is read for: the bytes its entry
      names, as far as they are there.  Both kinds of magic are served. */
  lemma ReadExactly(data: seq<Byte>, place: nat, sz: nat)
    requires place < CELLS
    ensures var (code, bytes) := Expected(data, place, sz);
            var known := StartsWith(data, "META") || StartsWith(data, "METZ");
            var counted := known && FromLe32(data[4..8]) == 64;
            && (code == -3 <==> |data| < 532)
            && (code == -4 <==> |data| >= 532 && !known)
            && (code == -5 <==> known && !counted)
            && (code == -6 <==> counted && !(0 <= EntryAt(data, place).size <= sz))
            && (code == -7 <==> counted && 0 <= EntryAt(data, place).size <= sz && EntryAt(data, place).offset < 0)
            && (code < 0 ==> -7 <= code <= -3 && bytes == [])
            && (code >= 0 ==>
                  var Place(offset, size) := EntryAt(data, place);
                  && code == |bytes|
                  && code == (if offset + size <= |data| then size else if offset < |data| then |data| - offset else 0)
                  && forall i :: 0 <= i < code ==> bytes[i] == data[offset + i])
  {
    hide FromLe32;
    if |data| >= 532 {
      assert data[..4] == META_MAGIC <==> StartsWith(data, "META") by { MagicIs(data, META_MAGIC, "META"); }
      assert data[..4] == META_MAGIC_COMPRESSED <==> StartsWith(data, "METZ") by {
        MagicIs(data, META_MAGIC_COMPRESSED, "METZ");
      }
    }
  }

  lemma MagicIs(data: seq<Byte>, magic: seq<Byte>, name: string)
    requires |data| >= 532 && |magic| == |name| == 4 && forall i :: 0 <= i < 4 ==> magic[i] == name[i] as int
    ensures data[..4] == magic <==> StartsWith(data, name)
  {
    assert forall i :: 0 <= i < 4 ==> data[..4][i] == data[i];
  }

  /** file_tile_read, on a file already found and opened. */
  method ReadTile(f: File, x: int, y: int, buf: array<Byte>) returns (code: int, compressed: bool)
    requires f.at == 0
    modifies f`at, buf
    ensures code == Expected(f.data, MetaOffset(x, y), buf.Length).0 || (f.flaky && (code == -2 || code == -8))
    ensures code >= 0 ==> code <= buf.Length && buf[..code] == Expected(f.data, MetaOffset(x, y), buf.Length).1
    ensures code >= 0 || code <= -6 ==> |f.data| >= 4 && compressed == (f.data[..4] != META_MAGIC)
  {
    hide MetaOffset, FromLe32;
    compressed := false;
    var m := new Byte[HEADER_SIZE];
    var pos, failed := ReadOn(f, m, HEADER_SIZE);
    if failed {
      return -2, compressed;
    }
    if pos < HEADER_SIZE {
      return -3, compressed;
    }
    assert m[..HEADER_SIZE] == f.data[..HEADER_SIZE];
    HeaderSlices(m[..], f.data, MetaOffset(x, y));
    if m[..4] != META_MAGIC {
      if m[..4] != META_MAGIC_COMPRESSED {
        return -4, compressed;
      }
      compressed := true;
    }
    if FromLe32(m[4..8]) != CELLS {
      return -5, compressed;
    }
    var place := MetaOffset(x, y);
    var offset := FromLe32(m[20 + 8 * place..24 + 8 * place]);
    var size := FromLe32(m[24 + 8 * place..28 + 8 * place]);
    if size < 0 || size > buf.Length {
      return -6, compressed;
    }
    if offset < 0 {
      return -7, compressed;
    }
    f.at := offset;
    pos, failed := ReadOn(f, buf, size);
    if failed {
      return -8, compressed;
    }
    return pos, compressed;
  }

  lemma HeaderSlices(m: seq<Byte>, data: seq<Byte>, place: nat)
    requires |m| == HEADER_SIZE <= |data| && m == data[..HEADER_SIZE] && place < CELLS
    ensures m[..4] == data[..4] && m[4..8] == data[4..8]
    ensures m[20 + 8 * place..24 + 8 * place] == data[20 + 8 * place..24 + 8 * place]
    ensures m[24 + 8 * place..28 + 8 * place] == data[24 + 8 * place..28 + 8 * place]
  {
  }

  // ------------------------------------------------------------ the round trip

  lemma Slices(h: seq<Byte>, t: seq<Byte>, p: seq<Byte>, i: nat, a: nat, b: nat)
    requires |h| == 20 && |t| == 512 && i < CELLS && a <= b <= |p|
    ensures var file := h + t + p;
            && file[..4] == h[..4] && file[4..8] == h[4..8]
            && file[20 + 8 * i..24 + 8 * i] == t[8 * i..8 * i + 4]
            && file[24 + 8 * i..28 + 8 * i] == t[8 * i + 4..8 * i + 8]
            && file[HEADER_SIZE + a..HEADER_SIZE + b] == p[a..b]
  {
  }

  /** The header of a laid-out file is in order, and the entry of tile k tells where it is. */
  lemma EntryOf(file: seq<Byte>, x: int, y: int, z: int, cells: seq<seq<Byte>>, k: nat)
    requires |cells| == CELLS && k < CELLS && IsLayout(file, x, y, z, cells) && Start(cells, CELLS) <= INT_MAX
    ensures |file| == Start(cells, CELLS) && |file| >= HEADER_SIZE
    ensures file[..4] == META_MAGIC && FromLe32(file[4..8]) == CELLS
    ensures EntryAt(file, Slot(x, y, k)) == Place(Start(cells, k), |cells[k]|)
    ensures Start(cells, k) + |cells[k]| <= |file| && file[Start(cells, k)..Start(cells, k) + |cells[k]|] == cells[k]
  {
    hide Slot, Start, Payload, TableBytes, Placed, Le32, FromLe32;
    var table: seq<Place> :| |table| == CELLS && Placed(table, x, y, cells, CELLS)
                             && file == HeaderBytes(x, y, z) + TableBytes(table) + Payload(cells, CELLS);
    var place := Slot(x, y, k);
    var from := Start(cells, k) - HEADER_SIZE;
    PlaceOf(cells, table, x, y, k);
    PayloadAt(cells, CELLS, k);
    Slices(HeaderBytes(x, y, z), TableBytes(table), Payload(cells, CELLS), place, from, from + |cells[k]|);
    TableBytesAt(table, place);
    IntRoundTrip(CELLS);
    IntRoundTrip(Start(cells, k));
    IntRoundTrip(|cells[k]|);
    assert HeaderBytes(x, y, z)[..4] == META_MAGIC && HeaderBytes(x, y, z)[4..8] == Le32(CELLS);
  }

  /** The format, in numbers: which metatile it is stands in the header, and entry 8 * i + j of the
      table tells where the tile in column i and row j is. */
  lemma FormatOf(file: seq<Byte>, x: int, y: int, z: int, tile: seq<seq<seq<Byte>>>, i: nat, j: nat)
    requires Square(tile) && IsLayout(file, x, y, z, CellsOf(tile)) && Start(CellsOf(tile), CELLS) <= INT_MAX
    requires x % 8 == 0 && y % 8 == 0 && i < 8 && j < 8
    requires -INT_MAX - 1 <= x <= INT_MAX && -INT_MAX - 1 <= y <= INT_MAX && -INT_MAX - 1 <= z <= INT_MAX
    ensures |file| >= 532 && 8 * i + j < 64
    ensures (FromLe32(file[8..12]), FromLe32(file[12..16]), FromLe32(file[16..20])) == (x, y, z)
    ensures var Place(offset, size) := EntryAt(file, 8 * i + j);
            && size == |tile[i][j]| && 532 <= offset <= offset + size <= |file|
            && file[offset..offset + size] == tile[i][j]
  {
    hide Start, IsLayout, Le32, FromLe32, CellsOf;
    SlotOf(x, y, i, j);
    assert MetaOffset(x + i, y + j) == 8 * i + j;
    EntryOf(file, x, y, z, CellsOf(tile), 8 * i + j);
    HeaderOf(file, x, y, z, CellsOf(tile));
    IntRoundTrip(x);
    IntRoundTrip(y);
    IntRoundTrip(z);
  }

  lemma HeaderOf(file: seq<Byte>, x: int, y: int, z: int, cells: seq<seq<Byte>>)
    requires |cells| == CELLS && IsLayout(file, x, y, z, cells)
    ensures |file| >= 20 && file[8..12] == Le32(x) && file[12..16] == Le32(y) && file[16..20] == Le32(z)
  {
    hide Le32, TableBytes, Payload, Placed;
    var h := HeaderBytes(x, y, z);
    assert h[8..12] == Le32(x) && h[12..16] == Le32(y) && h[16..20] == Le32(z);
    assert file[..20] == h;
    assert file[8..12] == h[8..12] && file[12..16] == h[12..16] && file[16..20] == h[16..20];
  }

  /** What was laid out for tile k comes back when its place is read, or -6 if it does not fit
      the caller's buffer. */
  lemma ReadsBack(file: seq<Byte>, x: int, y: int, z: int, cells: seq<seq<Byte>>, k: nat, sz: nat)
    requires |cells| == CELLS && k < CELLS && IsLayout(file, x, y, z, cells) && Start(cells, CELLS) <= INT_MAX
    ensures Expected(file, Slot(x, y, k), sz) == if |cells[k]| > sz then (-6, []) else (|cells[k]|, cells[k])
  {
    hide Slot, Start, IsLayout, EntryAt, FromLe32;
    EntryOf(file, x, y, z, cells, k);
  }

  predicate Within(e: Place, p: int) {
    e.offset <= p < e.offset + e.size
  }

  predicate Apart(e: Place, e': Place) {
    e.offset + e.size <= e'.offset || e'.offset + e'.size <= e.offset
  }

  ghost predicate Covered(file: seq<Byte>, p: int)
    requires |file| >= HEADER_SIZE
  {
    exists o :: 0 <= o < CELLS && Within(EntryAt(file, o), p)
  }

  /** The ranges that the table in the file gives lie behind the header, none overlaps another,
      and every byte behind the header is in one of them. */
  ghost predicate RangesTile(file: seq<Byte>) {
    && |file| >= HEADER_SIZE
    && (forall o :: 0 <= o < CELLS ==>
          var e := EntryAt(file, o); HEADER_SIZE <= e.offset <= e.offset + e.size <= |file|)
    && (forall o, o' :: 0 <= o < CELLS && 0 <= o' < CELLS && o != o' ==> Apart(EntryAt(file, o), EntryAt(file, o')))
    && (forall p :: HEADER_SIZE <= p < |file| ==> Covered(file, p))
  }

  lemma {:induction false} TileAround(cells: seq<seq<Byte>>, n: nat, p: int) returns (k: nat)
    requires n <= |cells| && HEADER_SIZE <= p < Start(cells, n)
    ensures k < n && Within(Place(Start(cells, k), |cells[k]|), p)
  {
    k := n - 1;
    if p < Start(cells, n - 1) {
      k := TileAround(cells, n - 1, p);
    }
  }

  lemma TilesApart(cells: seq<seq<Byte>>, k: nat, k': nat)
    requires k < |cells| && k' < |cells| && k != k'
    ensures Apart(Place(Start(cells, k), |cells[k]|), Place(Start(cells, k'), |cells[k']|))
  {
    hide Start, Payload;
    NextOf(cells, [], k);
    NextOf(cells, [], k');
    if k < k' {
      StartGrows(cells, k + 1, k');
    } else {
      StartGrows(cells, k' + 1, k);
    }
  }

  /** So it is in every laid-out file. */
  lemma TilesTileTheFile(file: seq<Byte>, x: int, y: int, z: int, cells: seq<seq<Byte>>)
    requires |cells| == CELLS && IsLayout(file, x, y, z, cells) && Start(cells, CELLS) <= INT_MAX
    ensures RangesTile(file)
  {
    hide Slot, Start, IsLayout, EntryAt, Within, Apart;
    EntryOf(file, x, y, z, cells, 0);
    forall o | 0 <= o < CELLS
      ensures var e := EntryAt(file, o); HEADER_SIZE <= e.offset <= e.offset + e.size <= |file|
    {
      var k := SlotOnto(x, y, o);
      EntryOf(file, x, y, z, cells, k);
    }
    forall o, o' | 0 <= o < CELLS && 0 <= o' < CELLS && o != o' ensures Apart(EntryAt(file, o), EntryAt(file, o')) {
      var k := SlotOnto(x, y, o);
      var k' := SlotOnto(x, y, o');
      EntryOf(file, x, y, z, cells, k);
      EntryOf(file, x, y, z, cells, k');
      TilesApart(cells, k, k');
    }
    forall p | HEADER_SIZE <= p < |file| ensures Covered(file, p) {
      var k := TileAround(cells, CELLS, p);
      EntryOf(file, x, y, z, cells, k);
      assert Within(EntryAt(file, Slot(x, y, k)), p);
    }
  }

  /** A byte is in one range only. */
  lemma InOneRange(file: seq<Byte>, o: nat, o': nat, p: int)
    requires RangesTile(file) && o < CELLS && o' < CELLS
    requires Within(EntryAt(file, o), p) && Within(EntryAt(file, o'), p)
    ensures o == o'
  {
    assert o != o' ==> Apart(EntryAt(file, o), EntryAt(file, o'));
  }

  /** Saving a metatile and reading one of its tiles back, however the reads are split. */
  method SaveThenRead(x: int, y: int, z: int, tile: seq<seq<seq<Byte>>>, ox: nat, oy: nat, buf: array<Byte>)
    returns (code: int)
    requires Square(tile) && Start(CellsOf(tile), CELLS) <= INT_MAX && ox < METATILE && oy < METATILE
    modifies buf
    ensures if |tile[ox][oy]| > buf.Length then code == -6
            else code == |tile[ox][oy]| && buf[..code] == tile[ox][oy]
  {
    hide Slot, MetaOffset, IsLayout, Start, Expected;
    var written := Save(x, y, z, tile);
    ghost var file := written[..];
    var f := new File(written[..], false);
    var compressed;
    ReadsBack(file, x, y, z, CellsOf(tile), ox * METATILE + oy, buf.Length);
    SlotOf(x, y, ox, oy);
    code, compressed := ReadTile(f, x + ox, y + oy, buf);
  }
}
