/** Which layer a request URI belongs to.  The configuration gives every map a base URI; the
    loader refuses lists in which one base URI lies below an earlier one; the Apache module
    takes the first layer whose base URI the request starts with. */
module Routing {
  import opened Bytes
  import opened Protocol

  // ------------------------------------------------------------ base URIs

  predicate EndsInSlash(s: string) {
    s != "" && s[|s| - 1] == '/'
  }

  function Cut(s: string, n: nat): string {
    s[..Min(|s|, n)]
  }

  /** The URI setting as the loader keeps it: with a slash at the end, and no longer than a path
      may be. */
  function Slashed(src: string): string {
    if EndsInSlash(Cut(src, PATH_MAX)) then Cut(src, PATH_MAX) else Cut(src + "/", PATH_MAX)
  }

  /** The base URI that the Apache module makes of it. */
  function BaseUri(uri: string): string {
    if uri == "" then "/"
    else if EndsInSlash(Cut(uri, PATH_MAX)) then Cut(uri, PATH_MAX)
    else uri + "/"
  }

  /** The module uses the very URI that the loader checked exactly if the slash was not lost in
      the cut. */
  lemma SameUriExactly(src: string)
    ensures BaseUri(Slashed(src)) == Slashed(src) <==> |src| < PATH_MAX || src[PATH_MAX - 1] == '/'
    ensures EndsInSlash(Slashed(src)) <==> |src| < PATH_MAX || src[PATH_MAX - 1] == '/'
  {
    if |src| < PATH_MAX {
      assert Cut(src, PATH_MAX) == src && Cut(src + "/", PATH_MAX) == src + "/";
    } else {
      assert Cut(src + "/", PATH_MAX) == Cut(src, PATH_MAX);
      assert Cut(Cut(src, PATH_MAX), PATH_MAX) == Cut(src, PATH_MAX);
      if src[PATH_MAX - 1] != '/' {
        assert |BaseUri(Slashed(src))| == PATH_MAX + 1;
      }
    }
  }

  /** The shortest setting that loses it. */
  lemma SlashLostInTheCut()
    ensures var src := seq(PATH_MAX, _ => 'a');
            !EndsInSlash(Slashed(src)) && BaseUri(Slashed(src)) != Slashed(src)
  {
    SameUriExactly(seq(PATH_MAX, _ => 'a'));
  }

  /** A setting without the slash it may end in. */
  function Bare(s: string): string {
    if EndsInSlash(s) then s[..|s| - 1] else s
  }

  /** Both make of a setting that is short enough the setting with one slash at its end. */
  lemma OneSlashAtTheEnd(s: string)
    requires |s| < PATH_MAX
    ensures Slashed(s) == BaseUri(s) == Bare(s) + "/"
  {
    assert Cut(s, PATH_MAX) == s && Cut(s + "/", PATH_MAX) == s + "/";
  }

  /** With the slashes on, one base URI is the beginning of another only if it is a parent: "/osm"
      is no parent of "/osm2", whether or not the settings end in a slash. */
  lemma SlashedMeansParent(a: string, b: string)
    requires |a| < PATH_MAX && |b| < PATH_MAX
    ensures Slashed(a) <= Slashed(b) <==> Bare(a) <= Bare(b) && (|Bare(a)| < |Bare(b)| ==> Bare(b)[|Bare(a)|] == '/')
  {
    var a', b' := Bare(a), Bare(b);
    assert Cut(a, PATH_MAX) == a && Cut(b, PATH_MAX) == b;
    assert Slashed(a) == a' + "/" && Slashed(b) == b' + "/";
    if Slashed(a) <= Slashed(b) {
      forall i | 0 <= i < |a'| ensures a'[i] == b'[i] {
        assert a'[i] == (a' + "/")[i] == (b' + "/")[i] == b'[i];
      }
      assert '/' == (a' + "/")[|a'|] == (b' + "/")[|a'|];
    }
  }

  // ------------------------------------------------------------ checking and choosing

  /** No base URI may be the beginning of a later one. */
  ghost predicate NoParentFirst(uris: seq<string>) {
    forall x, y :: 0 <= x < y < |uris| ==> !(uris[x] <= uris[y])
  }

  method CheckUris(uris: seq<string>) returns (ok: bool)
    ensures ok <==> NoParentFirst(uris)
  {
    var x := 0;
    while x < |uris| - 1
      invariant 0 <= x
      invariant forall i, j :: 0 <= i < x && i < j < |uris| ==> !(uris[i] <= uris[j])
    {
      var y := x + 1;
      while y <= |uris| - 1
        invariant x < y
        invariant forall j :: x < j < y && j < |uris| ==> !(uris[x] <= uris[j])
      {
        if uris[x] <= uris[y] {
          return false;
        }
        y := y + 1;
      }
      x := x + 1;
    }
    return true;
  }

  /** `i` is the one layer with the longest base URI that `uri` starts with. */
  ghost predicate BestMatch(uris: seq<string>, uri: string, i: nat) {
    && i < |uris| && uris[i] <= uri
    && forall j :: 0 <= j < |uris| && j != i && uris[j] <= uri ==> |uris[j]| < |uris[i]|
  }

  ghost predicate FirstMatch(uris: seq<string>, uri: string, i: nat) {
    && i < |uris| && uris[i] <= uri
    && forall j :: 0 <= j < i ==> !(uris[j] <= uri)
  }

  datatype Target = Stats | Metrics | Layer(number: nat) | Declined

  /** The layer scan of tile_translate.  The two built-in pages go before all layers. */
  method Translate(uris: seq<string>, uri: string) returns (t: Target)
    ensures t == Stats <==> "/mod_tile" <= uri
    ensures t == Metrics <==> "/metrics" <= uri && !("/mod_tile" <= uri)
    ensures t.Layer? ==> FirstMatch(uris, uri, t.number)
    ensures t == Declined ==> forall j :: 0 <= j < |uris| ==> !(uris[j] <= uri)
    ensures NoParentFirst(uris) && t.Layer? ==> BestMatch(uris, uri, t.number)
  {
    if "/mod_tile" <= uri {
      return Stats;
    }
    if "/metrics" <= uri {
      return Metrics;
    }
    for i := 0 to |uris|
      invariant forall j :: 0 <= j < i ==> !(uris[j] <= uri)
    {
      if uris[i] <= uri {
        if NoParentFirst(uris) {
          FirstIsBest(uris, uri, i);
        }
        return Layer(i);
      }
    }
    return Declined;
  }

  /** Two beginnings of one string: the shorter is the beginning of the longer. */
  lemma Comparable(a: string, b: string, uri: string)
    requires a <= uri && b <= uri && |a| <= |b|
    ensures a <= b
  {
    assert a == uri[..|a|] && b == uri[..|b|];
  }

  lemma FirstIsBest(uris: seq<string>, uri: string, i: nat)
    requires NoParentFirst(uris) && FirstMatch(uris, uri, i)
    ensures BestMatch(uris, uri, i)
  {
    forall j | 0 <= j < |uris| && j != i && uris[j] <= uri ensures |uris[j]| < |uris[i]| {
      if |uris[i]| <= |uris[j]| {
        Comparable(uris[i], uris[j], uri);
      }
    }
  }

  /** The loader's check is neither too weak nor too strong: it lets exactly those lists through
      for which the first match is, for every request, the best one. */
  lemma CheckIsExact(uris: seq<string>)
    ensures NoParentFirst(uris) <==> forall uri, i :: FirstMatch(uris, uri, i) ==> BestMatch(uris, uri, i)
  {
    forall uri, i | NoParentFirst(uris) && FirstMatch(uris, uri, i) ensures BestMatch(uris, uri, i) {
      FirstIsBest(uris, uri, i);
    }
    if !NoParentFirst(uris) {
      var x, y :| 0 <= x < y < |uris| && uris[x] <= uris[y];
      var i := FirstMatchOf(uris, uris[y], x);
      assert FirstMatch(uris, uris[y], i) && !BestMatch(uris, uris[y], i);
    }
  }

  lemma {:induction false} FirstMatchOf(uris: seq<string>, uri: string, x: nat) returns (i: nat)
    requires x < |uris| && uris[x] <= uri
    ensures i <= x && FirstMatch(uris, uri, i)
  {
    i := 0;
    while !(uris[i] <= uri)
      invariant i <= x && forall j :: 0 <= j < i ==> !(uris[j] <= uri)
      decreases x - i
    {
      i := i + 1;
    }
  }

  /** A layer can be reached at all exactly if no earlier base URI is the beginning of its own. */
  lemma ReachableExactly(uris: seq<string>, y: nat)
    requires y < |uris|
    ensures (exists uri :: FirstMatch(uris, uri, y)) <==> forall x :: 0 <= x < y ==> !(uris[x] <= uris[y])
  {
    if forall x :: 0 <= x < y ==> !(uris[x] <= uris[y]) {
      assert FirstMatch(uris, uris[y], y);
    } else {
      var x :| 0 <= x < y && uris[x] <= uris[y];
      forall uri ensures !FirstMatch(uris, uri, y) {
        if uris[y] <= uri {
          assert uris[y] == uri[..|uris[y]|] && uris[x] == uris[y][..|uris[x]|];
        }
      }
    }
  }
}
