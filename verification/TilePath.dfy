/** The file path of a metatile: directory, map name, zoom, and the coordinates of its corner
    interleaved four bits at a time into five directory levels.  The daemon and the Apache
    module must agree on it, and the tools read it back. */
module TilePath {
  import opened Bytes
  import opened Protocol
  import opened Metatile

  // ------------------------------------------------------------ printf %d and scanf %d

  function Digit(d: nat): (c: char)
    requires d < 10
    ensures IsDigit(c) && DigitValue(c) == d
  {
    ('0' as int + d) as char
  }

  predicate IsDigit(c: char) {
    '0' <= c <= '9'
  }

  function DigitValue(c: char): nat
    requires IsDigit(c)
  {
    c as int - '0' as int
  }

  function Dec(n: nat): (s: string)
    ensures |s| > 0 && forall i :: 0 <= i < |s| ==> IsDigit(s[i])
  {
    if n < 10 then [Digit(n)] else Dec(n / 10) + [Digit(n % 10)]
  }

  function PrintInt(v: int): string {
    if v < 0 then "-" + Dec(-v) else Dec(v)
  }

  predicate AllDigits(s: string) {
    forall i :: 0 <= i < |s| ==> IsDigit(s[i])
  }

  function Value(s: string): nat
    requires AllDigits(s)
  {
    if s == "" then 0 else 10 * Value(s[..|s| - 1]) + DigitValue(s[|s| - 1])
  }

  function Leading(s: string): (k: nat)
    ensures k <= |s| && AllDigits(s[..k]) && (k < |s| ==> !IsDigit(s[k]))
  {
    if s == "" || !IsDigit(s[0]) then 0
    else
      var k := 1 + Leading(s[1..]);
      assert forall i :: 1 <= i < k ==> s[..k][i] == s[1..][..k - 1][i - 1];
      k
  }

  predicate IsSpace(c: char) {
    c == ' ' || '\t' <= c <= '\r'
  }

  /** A scanned number and what is left of the input. */
  datatype Scan = Scan(value: int, rest: string)

  function ScanInt(s: string): Option<Scan> {
    if s == "" then None
    else if IsSpace(s[0]) then ScanInt(s[1..])
    else
      var t := if s[0] == '-' || s[0] == '+' then s[1..] else s;
      var k := Leading(t);
      if k == 0 then None
      else Some(Scan(if s[0] == '-' then -(Value(t[..k]) as int) else Value(t[..k]), t[k..]))
  }

  lemma {:induction false} ValueOfDec(n: nat)
    ensures Value(Dec(n)) == n
  {
    if n >= 10 {
      ValueOfDec(n / 10);
      assert Dec(n)[..|Dec(n)| - 1] == Dec(n / 10);
    }
  }

  predicate EndsNumber(rest: string) {
    rest == "" || !IsDigit(rest[0])
  }

  lemma {:induction false} LeadingOf(s: string, rest: string)
    requires AllDigits(s) && EndsNumber(rest)
    ensures Leading(s + rest) == |s|
  {
    if s == "" {
      assert s + rest == rest;
    } else {
      LeadingOf(s[1..], rest);
      assert (s + rest)[1..] == s[1..] + rest;
    }
  }

  lemma ScanDigits(d: string, rest: string)
    requires AllDigits(d) && d != "" && EndsNumber(rest)
    ensures ScanInt(d + rest) == Some(Scan(Value(d), rest))
  {
    hide Value, Leading;
    var s := d + rest;
    LeadingOf(d, rest);
    assert IsDigit(s[0]) by { assert s[0] == d[0]; }
    assert s[..|d|] == d && s[|d|..] == rest;
  }

  lemma ScanMinus(d: string, rest: string)
    requires AllDigits(d) && d != "" && EndsNumber(rest)
    ensures ScanInt("-" + d + rest) == Some(Scan(-(Value(d) as int), rest))
  {
    hide Value, Leading;
    var s := "-" + d + rest;
    LeadingOf(d, rest);
    assert s[0] == '-' && s[1..] == d + rest;
    assert (d + rest)[..|d|] == d && (d + rest)[|d|..] == rest;
  }

  /** Reading back a printed number. */
  lemma ScanPrinted(v: int, rest: string)
    requires EndsNumber(rest)
    ensures ScanInt(PrintInt(v) + rest) == Some(Scan(v, rest))
  {
    hide Dec, Value, ScanInt;
    if v < 0 {
      ValueOfDec(-v);
      ScanMinus(Dec(-v), rest);
    } else {
      ValueOfDec(v);
      ScanDigits(Dec(v), rest);
    }
  }

  // ------------------------------------------------------------ lists of numbers, each after a slash

  function PrintInts(vs: seq<int>): string {
    if vs == [] then "" else "/" + (PrintInt(vs[0]) + PrintInts(vs[1..]))
  }

  function ScanInts(s: string, n: nat): Option<seq<int>>
    decreases n
  {
    if n == 0 then Some([])
    else if s == "" || s[0] != '/' then None
    else
      match ScanInt(s[1..])
      case None => None
      case Some(v) =>
        match ScanInts(v.rest, n - 1)
        case None => None
        case Some(vs) => Some([v.value] + vs)
  }

  lemma AfterSlash(a: string, b: string, rest: string)
    ensures var s := "/" + (a + b) + rest; s[0] == '/' && s[1..] == a + (b + rest)
  {
  }

  lemma {:induction false} ScanPrintedInts(vs: seq<int>, rest: string)
    requires EndsNumber(rest)
    ensures ScanInts(PrintInts(vs) + rest, |vs|) == Some(vs)
  {
    hide ScanInt, PrintInt;
    if vs != [] {
      var tail := PrintInts(vs[1..]) + rest;
      SlashFollows(vs[1..], rest);
      ScanPrintedInts(vs[1..], rest);
      ScanPrinted(vs[0], tail);
      AfterSlash(PrintInt(vs[0]), PrintInts(vs[1..]), rest);
      assert [vs[0]] + vs[1..] == vs;
    }
  }

  lemma SlashFollows(vs: seq<int>, rest: string)
    requires EndsNumber(rest)
    ensures EndsNumber(PrintInts(vs) + rest)
  {
    hide PrintInt;
    if vs == [] {
      assert PrintInts(vs) + rest == rest;
    } else {
      AfterSlash(PrintInt(vs[0]), PrintInts(vs[1..]), rest);
    }
  }

  // ------------------------------------------------------------ interleaving

  function Shifted(v: int, i: nat): int {
    if i == 0 then v else Shifted(v, i - 1) / 16
  }

  /** hash[i] of xyzo_to_meta: the i-th nibbles of x and y side by side. */
  function Nibble(v: int, i: nat): (n: nat)
    ensures n < 16
  {
    Shifted(v, i) % 16
  }

  function HashAt(x: int, y: int, i: nat): (h: nat)
    ensures h < 256
  {
    Nibble(x, i) * 16 + Nibble(y, i)
  }

  /** Five levels hold twenty bits. */
  const LIMIT := 0x10_0000

  lemma NibblesAre(v: int)
    ensures Nibble(v, 0) == v % 16 && Nibble(v, 1) == v / 16 % 16 && Nibble(v, 2) == v / 16 / 16 % 16
    ensures Nibble(v, 3) == v / 16 / 16 / 16 % 16 && Nibble(v, 4) == v / 16 / 16 / 16 / 16 % 16
  {
    assert Shifted(v, 1) == v / 16 && Shifted(v, 2) == v / 16 / 16;
    assert Shifted(v, 3) == v / 16 / 16 / 16 && Shifted(v, 4) == v / 16 / 16 / 16 / 16;
  }

  lemma FiveNibbles(v: int)
    requires 0 <= v < LIMIT
    ensures v == (((Nibble(v, 4) * 16 + Nibble(v, 3)) * 16 + Nibble(v, 2)) * 16 + Nibble(v, 1)) * 16 + Nibble(v, 0)
  {
    hide Nibble;
    NibblesAre(v);
  }

  // ------------------------------------------------------------ the path

  function Suffix(options: string): string {
    if |options| > 0 then "." + options + ".meta" else ".meta"
  }

  function Levels(x: int, y: int): (hs: seq<int>)
    ensures |hs| == 5
  {
    var cx, cy := Corner(x), Corner(y);
    [HashAt(cx, cy, 4), HashAt(cx, cy, 3), HashAt(cx, cy, 2), HashAt(cx, cy, 1), HashAt(cx, cy, 0)]
  }

  function PathOf(dir: string, xmlconfig: string, options: string, x: int, y: int, z: int): string {
    dir + ("/" + xmlconfig + (PrintInts([z] + Levels(x, y)) + Suffix(options)))
  }

  /** What snprintf leaves of a path in a buffer of `len` bytes. */
  function Printed(path: string, len: nat): string
    requires len > 0
  {
    if |path| < len then path else path[..len - 1]
  }

  /** The five hashes, the last first, are the levels of the path. */
  lemma LevelsAre(x: int, y: int, hash: seq<nat>)
    requires |hash| == 5 && forall k :: 0 <= k < 5 ==> hash[k] == HashAt(Corner(x), Corner(y), k)
    ensures Levels(x, y) == [hash[4], hash[3], hash[2], hash[1], hash[0]]
  {
    hide HashAt, Corner;
  }

  /** The loop of xyzo_to_meta over the corner's nibbles. */
  method Hash(cx: int, cy: int) returns (hash: array<nat>)
    ensures fresh(hash) && hash.Length == 5 && forall k :: 0 <= k < 5 ==> hash[k] == HashAt(cx, cy, k)
  {
    hide HashAt, Shifted;
    hash := new nat[5];
    var x, y := cx, cy;
    ShiftedBy(cx, 0);
    ShiftedBy(cy, 0);
    for i := 0 to 5
      invariant x == Shifted(cx, i) && y == Shifted(cy, i)
      invariant forall k :: 0 <= k < i ==> hash[k] == HashAt(cx, cy, k)
    {
      HashIs(cx, cy, i);
      ShiftedBy(cx, i);
      ShiftedBy(cy, i);
      hash[i] := x % 16 * 16 + y % 16;
      x, y := x / 16, y / 16;
    }
  }

  lemma HashIs(x: int, y: int, i: nat)
    ensures HashAt(x, y, i) == Shifted(x, i) % 16 * 16 + Shifted(y, i) % 16
  {
  }

  lemma ShiftedBy(v: int, i: nat)
    ensures Shifted(v, 0) == v && Shifted(v, i + 1) == Shifted(v, i) / 16
  {
  }

  /** xyzo_to_meta, into a buffer of `len` bytes. */
  method XyzoToMeta(len: nat, dir: string, xmlconfig: string, options: string, x: int, y: int, z: int)
    returns (path: string, offset: nat)
    requires len > 0
    ensures offset == MetaOffset(x, y)
    ensures path == Printed(PathOf(dir, xmlconfig, options, x, y, z), len)
  {
    hide PrintInts, Suffix, HashAt, Levels;
    offset := x % METATILE * METATILE + y % METATILE;
    var hash := Hash(x - x % METATILE, y - y % METATILE);
    LevelsAre(x, y, hash[..]);
    var levels := [hash[4], hash[3], hash[2], hash[1], hash[0]];
    path := dir + ("/" + xmlconfig + (PrintInts([z] + levels) + Suffix(options)));
    if |path| >= len {
      path := path[..len - 1];
    }
  }

  // ------------------------------------------------------------ reading it back

  /** How many characters, `n` at most, come before the next slash. */
  function NameLength(s: string, n: nat): (k: nat)
    ensures k <= |s| && k <= n
    decreases n
  {
    if n == 0 || s == "" || s[0] == '/' then 0 else 1 + NameLength(s[1..], n - 1)
  }

  /** What path_to_xyz makes of a path: an error, or all it reports. */
  datatype Parsed = Bad(status: int) | Good(status: int, xmlconfig: string, x: int, y: int, z: int)

  /** 0 if the coordinates are on the grid, 1 if not. */
  function CheckXyz(x: int, y: int, z: int): int {
    if 0 <= z <= MAX_ZOOM && 0 <= x <= Pow2(z) - 1 && 0 <= y <= Pow2(z) - 1 then 0 else 1
  }

  function JoinHigh(hs: seq<int>, n: nat): int
    requires n <= |hs|
  {
    if n == 0 then 0 else JoinHigh(hs, n - 1) * 16 + hs[n - 1] / 16
  }

  function JoinLow(hs: seq<int>, n: nat): int
    requires n <= |hs|
  {
    if n == 0 then 0 else JoinLow(hs, n - 1) * 16 + hs[n - 1] % 16
  }

  /** sscanf with the format "/%40[^/]/%d/%d/%d/%d/%d/%d", if all seven fields are there. */
  function ScanPath(s: string): Option<(string, seq<int>)> {
    if s == "" || s[0] != '/' then None
    else
      var k := NameLength(s[1..], 40);
      if k == 0 then None
      else
        match ScanInts(s[1 + k..], 6)
        case None => None
        case Some(vs) => Some((s[1..1 + k], vs))
  }

  lemma {:induction false} ScanIntsLength(s: string, n: nat)
    ensures ScanInts(s, n).Some? ==> |ScanInts(s, n).value| == n
    decreases n
  {
    hide ScanInt;
    if n > 0 && s != "" && s[0] == '/' && ScanInt(s[1..]).Some? {
      ScanIntsLength(ScanInt(s[1..]).value.rest, n - 1);
    }
  }

  function ParsePath(tilepath: string, path: string): Parsed {
    if !(tilepath <= path) then Bad(1)
    else
      match ScanPath(path[|tilepath|..])
      case None => Bad(1)
      case Some((name, vs)) =>
        if |vs| != 6 then Bad(1)
        else if exists i :: 1 <= i < 6 && !(0 <= vs[i] <= 255) then Bad(2)
        else
          var x, y := JoinHigh(vs[1..], 5), JoinLow(vs[1..], 5);
          Good(CheckXyz(x, y, vs[0]), name, x, y, vs[0])
  }

  /** path_to_xyz */
  method PathToXyz(tilepath: string, path: string) returns (r: Parsed)
    ensures r == ParsePath(tilepath, path)
  {
    hide ScanPath, CheckXyz;
    var i := 0;
    while i < |tilepath| && i < |path| && tilepath[i] == path[i]
      invariant 0 <= i <= |tilepath| && i <= |path| && tilepath[..i] == path[..i]
    {
      i := i + 1;
    }
    if i < |tilepath| {
      return Bad(1);
    }
    var scanned := ScanPath(path[i..]);
    if scanned.None? {
      return Bad(1);
    }
    var (name, vs) := scanned.value;
    ScanPathLength(path[i..]);
    var hash := vs[1..];
    var x, y := 0, 0;
    for k := 0 to 5
      invariant forall j :: 1 <= j < k + 1 ==> 0 <= vs[j] <= 255
      invariant x == JoinHigh(hash, k) && y == JoinLow(hash, k)
    {
      if hash[k] < 0 || hash[k] > 255 {
        assert !(0 <= vs[k + 1] <= 255);
        return Bad(2);
      }
      x := x * 16 + hash[k] / 16;
      y := y * 16 + hash[k] % 16;
    }
    r := Good(CheckXyz(x, y, vs[0]), name, x, y, vs[0]);
  }

  lemma ScanPathLength(s: string)
    ensures ScanPath(s).Some? ==> |ScanPath(s).value.1| == 6
  {
    if ScanPath(s).Some? {
      ScanIntsLength(s[1 + NameLength(s[1..], 40)..], 6);
    }
  }

  // ------------------------------------------------------------ the round trip

  predicate MapName(s: string) {
    0 < |s| <= 40 && forall i :: 0 <= i < |s| ==> s[i] != '/'
  }

  predicate OnGrid(x: int, y: int, z: int) {
    0 <= z <= MAX_ZOOM && 0 <= x < Pow2(z) && 0 <= y < Pow2(z)
  }

  lemma {:induction false} NameLengthOf(name: string, rest: string, n: nat)
    requires |name| <= n && (forall i :: 0 <= i < |name| ==> name[i] != '/') && rest != "" && rest[0] == '/'
    ensures NameLength(name + rest, n) == |name|
  {
    if name == "" {
      assert name + rest == rest;
    } else {
      NameLengthOf(name[1..], rest, n - 1);
      assert (name + rest)[1..] == name[1..] + rest;
    }
  }

  lemma LevelsJoin(x: int, y: int, z: int)
    requires OnGrid(x, y, z)
    ensures JoinHigh(Levels(x, y), 5) == Corner(x) && JoinLow(Levels(x, y), 5) == Corner(y)
    ensures forall i :: 0 <= i < 5 ==> 0 <= Levels(x, y)[i] <= 255
    ensures CheckXyz(Corner(x), Corner(y), z) == 0
  {
    hide Nibble, Pow2;
    Pow2Grows(z, 20);
    Pow2Of20();
    var hs := Levels(x, y);
    var cx, cy := Corner(x), Corner(y);
    FiveNibbles(cx);
    FiveNibbles(cy);
    forall i | 0 <= i < 5 ensures hs[i] / 16 == Nibble(cx, 4 - i) && hs[i] % 16 == Nibble(cy, 4 - i) {
    }
    assert JoinHigh(hs, 1) == Nibble(cx, 4) && JoinLow(hs, 1) == Nibble(cy, 4);
    assert JoinHigh(hs, 3) == (Nibble(cx, 4) * 16 + Nibble(cx, 3)) * 16 + Nibble(cx, 2);
    assert JoinLow(hs, 3) == (Nibble(cy, 4) * 16 + Nibble(cy, 3)) * 16 + Nibble(cy, 2);
  }

  /** The tools find in the path of a metatile what it was made from. */
  lemma PathReadsBack(dir: string, xmlconfig: string, options: string, x: int, y: int, z: int)
    requires MapName(xmlconfig) && OnGrid(x, y, z)
    ensures ParsePath(dir, PathOf(dir, xmlconfig, options, x, y, z)) == Good(0, xmlconfig, Corner(x), Corner(y), z)
  {
    hide Levels, JoinHigh, JoinLow, CheckXyz, Corner, ScanInts, PrintInt, NameLength, Pow2;
    var vs := [z] + Levels(x, y);
    var rest := PrintInts(vs) + Suffix(options);
    var s := "/" + xmlconfig + rest;
    var path := dir + s;
    assert dir <= path && path[|dir|..] == s;
    assert s[1..] == xmlconfig + rest && s[1..1 + |xmlconfig|] == xmlconfig && s[1 + |xmlconfig|..] == rest;
    assert rest[0] == '/';
    NameLengthOf(xmlconfig, rest, 40);
    ScanPrintedInts(vs, Suffix(options));
    LevelsJoin(x, y, z);
    assert vs[1..] == Levels(x, y);
  }

  /** Names longer than the field are what breaks it: for any other name the parse succeeds exactly if
      the name has 40 characters at most. */
  lemma PathReadsBackExactly(dir: string, xmlconfig: string, options: string, x: int, y: int, z: int)
    requires xmlconfig != "" && (forall i :: 0 <= i < |xmlconfig| ==> xmlconfig[i] != '/') && OnGrid(x, y, z)
    ensures ParsePath(dir, PathOf(dir, xmlconfig, options, x, y, z)) ==
            if |xmlconfig| <= 40 then Good(0, xmlconfig, Corner(x), Corner(y), z) else Bad(1)
  {
    hide PathOf, ParsePath, Corner, OnGrid;
    if |xmlconfig| <= 40 {
      PathReadsBack(dir, xmlconfig, options, x, y, z);
    } else {
      LongNameFails(dir, xmlconfig, PrintInts([z] + Levels(x, y)) + Suffix(options));
      assert PathOf(dir, xmlconfig, options, x, y, z) ==
             dir + ("/" + xmlconfig + (PrintInts([z] + Levels(x, y)) + Suffix(options))) by {
        PathIs(dir, xmlconfig, options, x, y, z);
      }
    }
  }

  lemma PathIs(dir: string, xmlconfig: string, options: string, x: int, y: int, z: int)
    ensures PathOf(dir, xmlconfig, options, x, y, z) ==
            dir + ("/" + xmlconfig + (PrintInts([z] + Levels(x, y)) + Suffix(options)))
  {
    hide PrintInts, Levels, Suffix;
  }

  /** The scan takes 40 characters for the name, and then finds no slash. */
  lemma LongNameFails(dir: string, name: string, rest: string)
    requires |name| > 40 && forall i :: 0 <= i < |name| ==> name[i] != '/'
    ensures ParsePath(dir, dir + ("/" + name + rest)) == Bad(1)
  {
    hide NameLength, ScanInt, JoinHigh, JoinLow, CheckXyz;
    var s := "/" + name + rest;
    var path := dir + s;
    assert dir <= path && path[|dir|..] == s;
    var t := s[1..];
    assert t == name + rest;
    NameIsCut(t, 40);
    assert s[41..][0] == name[40];
  }

  lemma {:induction false} NameIsCut(s: string, n: nat)
    requires n <= |s| && forall i :: 0 <= i < n ==> s[i] != '/'
    ensures NameLength(s, n) == n
    decreases n
  {
    if n > 0 {
      NameIsCut(s[1..], n - 1);
    }
  }

  /** What the parser makes of any path: status 0 exactly for coordinates on the grid. */
  lemma StatusExactly(tilepath: string, path: string)
    ensures var r := ParsePath(tilepath, path);
            if r.Good? then r.status == (if OnGrid(r.x, r.y, r.z) then 0 else 1)
            else r.status == 1 || r.status == 2
  {
    hide ScanPath, JoinHigh, JoinLow;
  }

  /** The hexadecimal digit of weight `w`. */
  function Hex(v: int, w: int): int
    requires w > 0
  {
    v / w % 16
  }

  lemma NibblesAreHex(v: int)
    ensures Nibble(v, 4) == Hex(v, 65536) && Nibble(v, 3) == Hex(v, 4096) && Nibble(v, 2) == Hex(v, 256)
    ensures Nibble(v, 1) == Hex(v, 16) && Nibble(v, 0) == Hex(v, 1)
  {
    hide Nibble;
    NibblesAre(v);
    SixteenTwice(v);
  }

  lemma SixteenTwice(v: int)
    ensures v / 16 / 16 == v / 256
    ensures v / 16 / 16 / 16 == v / 4096
    ensures v / 16 / 16 / 16 / 16 == v / 65536
  {
  }

  /** Which digits of which coordinate the levels show: those of x count sixteen times. */
  lemma LevelsShow(x: int, y: int)
    ensures var cx, cy := Corner(x), Corner(y);
            Levels(x, y) == [16 * Hex(cx, 65536) + Hex(cy, 65536), 16 * Hex(cx, 4096) + Hex(cy, 4096),
                             16 * Hex(cx, 256) + Hex(cy, 256), 16 * Hex(cx, 16) + Hex(cy, 16),
                             16 * Hex(cx, 1) + Hex(cy, 1)]
  {
    hide HashAt, Corner, Hex;
    HashShows(Corner(x), Corner(y));
  }

  lemma HashShows(x: int, y: int)
    ensures HashAt(x, y, 4) == 16 * Hex(x, 65536) + Hex(y, 65536)
    ensures HashAt(x, y, 3) == 16 * Hex(x, 4096) + Hex(y, 4096)
    ensures HashAt(x, y, 2) == 16 * Hex(x, 256) + Hex(y, 256)
    ensures HashAt(x, y, 1) == 16 * Hex(x, 16) + Hex(y, 16)
    ensures HashAt(x, y, 0) == 16 * Hex(x, 1) + Hex(y, 1)
  {
    hide Nibble, Hex;
    NibblesAreHex(x);
    NibblesAreHex(y);
  }

  /** A tile of a map, with the options it is drawn with. */
  datatype TileId = TileId(xmlconfig: string, options: string, x: int, y: int, z: int)

  predicate Sound(t: TileId) {
    MapName(t.xmlconfig) && OnGrid(t.x, t.y, t.z)
  }

  function PathTo(dir: string, t: TileId): string {
    PathOf(dir, t.xmlconfig, t.options, t.x, t.y, t.z)
  }

  function PlaceIn(t: TileId): nat {
    MetaOffset(t.x, t.y)
  }

  predicate SameMetatile(t: TileId, u: TileId) {
    && t.xmlconfig == u.xmlconfig && t.options == u.options && t.z == u.z
    && Corner(t.x) == Corner(u.x) && Corner(t.y) == Corner(u.y)
  }

  /** All tiles of a metatile are in one file, that of its corner. */
  lemma CornerHasThePath(dir: string, t: TileId)
    ensures PathTo(dir, t) == PathTo(dir, t.(x := Corner(t.x), y := Corner(t.y)))
  {
    assert Corner(Corner(t.x)) == Corner(t.x) && Corner(Corner(t.y)) == Corner(t.y);
  }

  /** And no other metatile is. */
  lemma PathIdentifiesMetatile(dir: string, t: TileId, u: TileId)
    requires Sound(t) && Sound(u)
    ensures PathTo(dir, t) == PathTo(dir, u) <==> SameMetatile(t, u)
  {
    hide PathOf, Corner, ParsePath;
    CornerHasThePath(dir, t);
    CornerHasThePath(dir, u);
    if PathTo(dir, t) == PathTo(dir, u) {
      PathReadsBack(dir, t.xmlconfig, t.options, t.x, t.y, t.z);
      PathReadsBack(dir, u.xmlconfig, u.options, u.x, u.y, u.z);
      SameSuffix(dir, t.xmlconfig, Corner(t.x), Corner(t.y), t.z, t.options, u.options);
    }
  }

  /** Two tiles share both file and place only if they are the same tile, of the same map and
      options. */
  lemma PathAndPlaceIdentify(dir: string, t: TileId, u: TileId)
    requires Sound(t) && Sound(u) && PathTo(dir, t) == PathTo(dir, u) && PlaceIn(t) == PlaceIn(u)
    ensures t == u
  {
    hide PathOf;
    PathIdentifiesMetatile(dir, t, u);
    assert t.x == Corner(t.x) + t.x % METATILE && t.y == Corner(t.y) + t.y % METATILE;
    assert u.x == Corner(u.x) + u.x % METATILE && u.y == Corner(u.y) + u.y % METATILE;
  }

  /** xyzo_to_meta gives both tiles the same path and place. */
  predicate Alike(len: nat, dir: string, t: TileId, u: TileId)
    requires len > 0
  {
    Printed(PathTo(dir, t), len) == Printed(PathTo(dir, u), len) && PlaceIn(t) == PlaceIn(u)
  }

  /** What xyzo_to_meta returns identifies a tile, whatever other tiles there are, exactly if its
      path leaves a byte to spare in the buffer, besides the one that ends it: only then can it
      not be another one that was cut. */
  lemma PrintedPathIdentifiesExactly(len: nat, dir: string, t: TileId)
    requires len > 0 && Sound(t)
    ensures (forall u :: Sound(u) && Alike(len, dir, t, u) ==> u == t) <==> |PathTo(dir, t)| + 1 < len
  {
    hide PathTo, PlaceIn;
    if |PathTo(dir, t)| + 1 < len {
      forall u | Sound(u) && Alike(len, dir, t, u) ensures u == t {
        PathAndPlaceIdentify(dir, t, u);
      }
    } else {
      CutPathCollides(len, dir, t);
    }
  }

  /** The tile that a path with nothing to spare is mistaken for: the same with other options. */
  function Longer(t: TileId): TileId {
    t.(options := if t.options == "" then "meta" else t.options + ".meta")
  }

  lemma CutPathCollides(len: nat, dir: string, t: TileId)
    requires 0 < len <= |PathTo(dir, t)| + 1
    ensures Longer(t) != t && (Sound(t) ==> Sound(Longer(t))) && Alike(len, dir, t, Longer(t))
  {
    hide PrintInts, Levels, MetaOffset;
    var o := t.options;
    assert Suffix(Longer(t).options) == Suffix(o) + ".meta";
    assert PathTo(dir, Longer(t)) == PathTo(dir, t) + ".meta" by {
      var head := "/" + t.xmlconfig;
      var ints := PrintInts([t.z] + Levels(t.x, t.y));
      assert dir + (head + (ints + (Suffix(o) + ".meta"))) == dir + (head + (ints + Suffix(o))) + ".meta";
    }
  }

  /** In a buffer that the directory fills, all tiles have the same path. */
  lemma CutPathTellsNothing(len: nat, dir: string, t: TileId)
    requires 0 < len <= |dir| + 1
    ensures Printed(PathTo(dir, t), len) == dir[..len - 1]
  {
    hide PrintInts, Levels, Suffix;
  }

  lemma SameSuffix(dir: string, c: string, x: int, y: int, z: int, o: string, o': string)
    requires PathOf(dir, c, o, x, y, z) == PathOf(dir, c, o', x, y, z)
    ensures o == o'
  {
    hide PrintInts, Levels;
    var ints := PrintInts([z] + Levels(x, y));
    SamePrefix(dir, "/" + c + (ints + Suffix(o)), "/" + c + (ints + Suffix(o')));
    SamePrefix("/" + c, ints + Suffix(o), ints + Suffix(o'));
    SamePrefix(ints, Suffix(o), Suffix(o'));
    if |o| > 0 && |o'| > 0 {
      assert o == Suffix(o)[1..|Suffix(o)| - 5] && o' == Suffix(o')[1..|Suffix(o')| - 5];
    }
  }

  lemma SamePrefix(a: string, b: string, b': string)
    requires a + b == a + b'
    ensures b == b'
  {
    assert b == (a + b)[|a|..] && b' == (a + b')[|a|..];
  }
}
