/** renderd's request queue on the heap: six rings of items, a chained hash index over the
    listed ones, duplicate chains threaded through the items, counters and statistics.
    Every method is proved to do to the abstract state what QueueSpec says. */
module QueueHeap {
  import opened Protocol
  import opened QueueSpec
  import opened Admission
  import opened Rings
  import opened HashIndex
  import opened Seqs

  type Recs = map<Item, Rec<Item>>

  // ------------------------------------------------------------ what ties fields to records

  ghost predicate Fields(rec: Recs)
    reads rec.Keys`fd, rec.Keys`inQueue, rec.Keys`originatedQueue
  {
    forall t :: t in rec ==>
      && t.req == rec[t].req && t.fd == rec[t].fd && t.originatedQueue == rec[t].origin
      && t.inQueue == if rec[t].home.On? then rec[t].home.q else DUPLICATE
  }

  /** The chain of duplicates starting at `t.duplicates` is exactly `ds`. */
  ghost predicate DupChain(t: Item, ds: seq<Item>)
    reads t`duplicates, ds`duplicates
  {
    && t.duplicates == (if |ds| == 0 then null else ds[0])
    && (forall i {:trigger ds[i].duplicates} :: 0 <= i < |ds| ==>
          ds[i].duplicates == if i + 1 < |ds| then ds[i + 1] else null)
  }

  ghost predicate Chains(rec: Recs)
    reads rec.Keys`duplicates
  {
    && (forall t, i :: t in rec && 0 <= i < |rec[t].dups| ==> rec[t].dups[i] in rec)
    && (forall t :: t in rec && rec[t].home.On? ==> DupChain(t, rec[t].dups))
  }

  /** The index holds exactly the listed items, each once, in the bucket of its metatile. */
  ghost predicate IndexAgrees(entries: seq<seq<Item>>, rec: Recs) {
    && |entries| == HASHIDX_SIZE
    && (forall b :: 0 <= b < HASHIDX_SIZE ==> NoDup(entries[b]))
    && (forall b, i :: 0 <= b < HASHIDX_SIZE && 0 <= i < |entries[b]| ==>
          entries[b][i] in rec && rec[entries[b][i]].home.On? && BucketOf(KeyOf(entries[b][i].req)) == b)
    && (forall t :: t in rec && rec[t].home.On? ==> t in entries[BucketOf(KeyOf(t.req))])
  }

  ghost predicate HeadsOk(heads: seq<Item>, rec: Recs) {
    |heads| == 6 && NoDup(heads) && forall q :: 0 <= q < 6 ==> heads[q] !in rec
  }

  /** All items of the queue: the live ones and the six heads. */
  ghost function Footprint(heads: seq<Item>, rec: Recs): set<Item> {
    (set h | h in heads) + rec.Keys
  }

  lemma ListsInFootprint(heads: seq<Item>, s: State<Item>, q: nat)
    requires ListsOk(s) && HeadsOk(heads, s.rec) && q < 6
    ensures Nodes(heads[q], s.lists[q]) <= Footprint(heads, s.rec)
  {
  }

  lemma ListsAreSeparate(heads: seq<Item>, s: State<Item>)
    requires ListsOk(s) && HeadsOk(heads, s.rec)
    ensures Separate(heads, s.lists)
  {
    forall q, q' {:trigger s.lists[q], s.lists[q']} | 0 <= q < q' < 6
      ensures Nodes(heads[q], s.lists[q]) !! Nodes(heads[q'], s.lists[q'])
    {
    }
  }

  lemma InvFacts(heads: seq<Item>, s: State<Item>)
    requires Inv(s) && HeadsOk(heads, s.rec)
    ensures ListsOk(s) && ChainsOk(s) && KeysOk(s) && |s.lists| == 6 && StatsOk(s.stats)
    ensures AllNodes(heads, s.lists) <= Footprint(heads, s.rec)
  {
  }

  lemma ChainsOfChanged(rec: Recs, t: Item, r: Rec<Item>)
    requires Chains(rec) && t in rec && rec[t].home.On? && r.dups == rec[t].dups
    ensures Chains(rec[t := r])
  {
  }

  /** What fetching from class `q` needs to know and keeps. */
  lemma FetchFacts(heads: seq<Item>, s: State<Item>, q: Queue)
    requires Inv(s) && HeadsOk(heads, s.rec) && IsClass(q) && |s.lists[q]| > 0
    ensures ListsOk(s) && StatsOk(s.stats) && |heads| == 6
    ensures Inv(FetchFrom(s, q)) && HeadsOk(heads, FetchFrom(s, q).rec)
    ensures s.lists[q][0] in s.rec && s.rec[s.lists[q][0]].home.On?
    ensures Separate(heads, s.lists)
    ensures Nodes(heads[q], s.lists[q]) <= Footprint(heads, s.rec)
    ensures Nodes(heads[RENDER], s.lists[RENDER]) <= Footprint(heads, s.rec)
  {
    FetchKeepsInv(s, q);
    ListsAreSeparate(heads, s);
    ListsInFootprint(heads, s, q);
    ListsInFootprint(heads, s, RENDER);
  }

  /** What hanging `item` onto `p` needs to know and keeps. */
  lemma JoinFacts(heads: seq<Item>, s: State<Item>, item: Item, fd: int, origin: Queue, p: Item)
    requires Inv(s) && HeadsOk(heads, s.rec) && item !in Footprint(heads, s.rec)
    requires Find(s, KeyOf(item.req)) == Some(p) && s.rec[p].home.q != DIRTY && s.rec[p].home.q != BULK
    ensures p in s.rec && s.rec[p].home.On? && item !in s.rec
    ensures forall t, i :: t in s.rec && 0 <= i < |s.rec[t].dups| ==> s.rec[t].dups[i] != p
    ensures var s' := Join(s, item, item.req, fd, origin, p); Inv(s') && HeadsOk(heads, s'.rec)
  {
    FindIsExact(s, KeyOf(item.req));
    AddKeepsInv(s, item, item.req, fd, origin);
  }

  lemma ChainsOfListed(rec: Recs, t: Item, r: Rec<Item>)
    requires Chains(rec) && t !in rec && r.dups == [] && t.duplicates == null
    ensures Chains(rec[t := r])
  {
  }

  /** What listing `item` in class `q` needs to know and keeps. */
  lemma AdmitFacts(heads: seq<Item>, s: State<Item>, item: Item, fd: int, q: Queue)
    requires Inv(s) && HeadsOk(heads, s.rec) && item !in Footprint(heads, s.rec)
    requires Find(s, KeyOf(item.req)) == None && IsClass(q) && |s.lists[q]| < Limit(q)
    ensures |heads| == 6 && item !in s.rec && Separate(heads, s.lists)
    ensures forall q' {:trigger s.lists[q']} :: 0 <= q' < 6 ==> item !in Nodes(heads[q'], s.lists[q'])
    ensures Nodes(heads[q], s.lists[q]) <= Footprint(heads, s.rec)
    ensures var s' := Admit(s, item, item.req, fd, q);
            Inv(s') && HeadsOk(heads, s'.rec) && AllNodes(heads, s'.lists) <= Footprint(heads, s'.rec)
  {
    FindIsExact(s, KeyOf(item.req));
    ListsAreSeparate(heads, s);
    ListsInFootprint(heads, s, q);
    AdmitKeepsLists(s, item, item.req, fd, q);
    AdmitKeepsChains(s, item, item.req, fd, q);
    AdmitKeepsPolicy(s, item, item.req, fd, q);
    InvFacts(heads, Admit(s, item, item.req, fd, q));
  }

  lemma {:induction false} WithoutIsDrop<T>(l: seq<T>, k: nat)
    requires NoDup(l) && k < |l|
    ensures Without(l, l[k]) == l[..k] + l[k + 1..]
  {
    hide Without;
    WithoutFirst(l, l[k]);
    if k == 0 {
      WithoutAbsent(l[1..], l[0]);
    } else {
      WithoutIsDrop(l[1..], k - 1);
      assert l[..k] + l[k + 1..] == [l[0]] + (l[1..][..k - 1] + l[1..][k..]);
    }
  }

  lemma WithoutFirst<T>(l: seq<T>, t: T)
    requires l != []
    ensures Without(l, t) == if l[0] == t then Without(l[1..], t) else [l[0]] + Without(l[1..], t)
  {
  }

  lemma WithoutAbsent<T>(l: seq<T>, t: T)
    requires t !in l
    ensures Without(l, t) == l
  {
  }

  /** `rec'` lacks `t` and some duplicates, and keeps the rest with their chains. */
  ghost predicate Shrunk(rec: Recs, rec': Recs, t: Item) {
    && t !in rec'
    && (forall x :: x in rec' ==> x in rec && rec'[x] == rec[x])
    && (forall x :: x in rec && x !in rec' ==> x == t || rec[x].home.DupOf?)
    && (forall x, i :: x in rec' && 0 <= i < |rec'[x].dups| ==> rec'[x].dups[i] in rec')
  }

  /** What removing the k-th item of list `q` needs to know and keeps. */
  lemma RemoveFacts(heads: seq<Item>, s: State<Item>, q: nat, k: nat, time: int)
    requires Inv(s) && HeadsOk(heads, s.rec) && q < 6 && k < |s.lists[q]|
    requires time > 0 ==> s.lists[q][k] in s.rec && 0 <= s.rec[s.lists[q][k]].req.z <= MAX_ZOOM
    ensures var t := s.lists[q][k];
            && t in s.rec && s.rec[t].home == On(q) && |heads| == 6 && Separate(heads, s.lists)
            && Nodes(heads[q], s.lists[q]) <= Footprint(heads, s.rec)
            && var s' := Remove(s, t, time);
            && Inv(s') && HeadsOk(heads, s'.rec) && AllNodes(heads, s'.lists) <= Footprint(heads, s'.rec)
            && s'.lists == s.lists[q := s.lists[q][..k] + s.lists[q][k + 1..]]
            && Shrunk(s.rec, s'.rec, t)
  {
    hide KeysOk, PolicyOk;
    var t := s.lists[q][k];
    RemoveKeepsInv(s, t, time);
    WithoutIsDrop(s.lists[q], k);
    ListsAreSeparate(heads, s);
    ListsInFootprint(heads, s, q);
    InvFacts(heads, Remove(s, t, time));
  }

  /** An index entry with the item's metatile is the item. */
  lemma EntryIsItem(entries: seq<seq<Item>>, s: State<Item>, t: Item, k: nat)
    requires KeysOk(s) && IndexAgrees(entries, s.rec) && Fields(s.rec) && t in s.rec && s.rec[t].home.On?
    requires var e := entries[BucketOf(KeyOf(t.req))];
             k <= |e| && (forall i :: 0 <= i < k ==> KeyOf(e[i].req) != KeyOf(t.req))
             && (k < |e| ==> KeyOf(e[k].req) == KeyOf(t.req))
    ensures var e := entries[BucketOf(KeyOf(t.req))]; k < |e| && e[k] == t
  {
    hide BucketOf, KeyOf;
    assert t in entries[BucketOf(KeyOf(t.req))];
  }

  lemma FieldsFact(rec: Recs, t: Item)
    requires Fields(rec) && t in rec
    ensures t.req == rec[t].req && t.fd == rec[t].fd && t.originatedQueue == rec[t].origin
  {
  }

  lemma FieldsOfShrunk(rec: Recs, rec': Recs, t: Item)
    requires Fields(rec) && Chains(rec) && Shrunk(rec, rec', t)
    ensures Fields(rec') && Chains(rec')
  {
  }

  lemma NewStatsKeepInv(s: State<Item>, st: Stats)
    requires Inv(s) && StatsOk(st)
    ensures Inv(s.(stats := st))
  {
  }

  // ------------------------------------------------------------ field updates

  method MarkRendering(item: Item, ghost rec: Recs)
    requires Fields(rec) && item in rec && rec[item].home.On?
    modifies item`inQueue
    ensures Fields(rec[item := rec[item].(home := On(RENDER))])
  {
    item.inQueue := RENDER;
  }

  method MarkListed(item: Item, q: Queue, ghost rec: Recs)
    requires Fields(rec) && item !in rec && IsClass(q)
    modifies item`inQueue, item`originatedQueue, item`fd
    ensures Fields(rec[item := Rec(item.req, if q == DIRTY then FD_INVALID else old(item.fd), q, On(q), [])])
  {
    item.inQueue := q;
    item.originatedQueue := q;
    if q == DIRTY {
      item.fd := FD_INVALID;
    }
  }

  method MarkDuplicate(item: Item, p: Item, ghost rec: Recs)
    requires Fields(rec) && item !in rec && p in rec
    modifies item`inQueue
    ensures Fields(rec[p := rec[p].(dups := [item] + rec[p].dups)]
                      [item := Rec(item.req, item.fd, item.originatedQueue, DupOf(p), [])])
  {
    item.inQueue := DUPLICATE;
  }

  /** Hang `item` in front of the duplicates of `p`. */
  method HangOnto(item: Item, p: Item, ghost rec: Recs)
    requires Chains(rec) && item !in rec && p in rec && rec[p].home.On?
    requires forall t, i :: t in rec && 0 <= i < |rec[t].dups| ==> rec[t].dups[i] != p
    modifies item`duplicates, p`duplicates
    ensures Chains(rec[p := rec[p].(dups := [item] + rec[p].dups)]
                      [item := Rec(item.req, item.fd, item.originatedQueue, DupOf(p), [])])
  {
    item.duplicates := p.duplicates;
    p.duplicates := item;
    ghost var ds := [item] + rec[p].dups;
    assert DupChain(p, ds);
    forall t | t in rec && rec[t].home.On? && t != p ensures DupChain(t, rec[t].dups) {
      assert old(DupChain(t, rec[t].dups));
    }
  }

  // ------------------------------------------------------------ forgetting a descriptor

  /** The records once the items in `done` have forgotten descriptor `fd`. */
  ghost function Forget(rec: Recs, done: set<Item>, fd: int): Recs {
    map t | t in rec :: if t in done && rec[t].fd == fd then rec[t].(fd := FD_INVALID) else rec[t]
  }

  /** The first `n` items of `l` and their duplicates. */
  ghost function Covered(l: seq<Item>, n: nat, rec: Recs): set<Item>
    requires n <= |l|
  {
    if n == 0 then {}
    else Covered(l, n - 1, rec) + {l[n - 1]} + if l[n - 1] in rec then Elems(rec[l[n - 1]].dups) else {}
  }

  lemma ForgetStep(rec: Recs, done: set<Item>, t: Item, fd: int)
    requires t in rec
    ensures var r := Forget(rec, done, fd)[t];
            Forget(rec, done + {t}, fd) == Forget(rec, done, fd)[t := if r.fd == fd then r.(fd := FD_INVALID) else r]
  {
  }

  lemma ForgetNothing(rec: Recs, fd: int)
    requires Fields(rec)
    ensures Fields(Forget(rec, {}, fd))
  {
    assert Forget(rec, {}, fd) == rec;
  }

  method ForgetOne(t: Item, fd: int, ghost rec: Recs, ghost done: set<Item>)
    requires t in rec && Fields(Forget(rec, done, fd))
    modifies t`fd
    ensures Fields(Forget(rec, done + {t}, fd))
  {
    ForgetStep(rec, done, t, fd);
    if t.fd == fd {
      t.fd := FD_INVALID;
    }
  }

  method ForgetChain(item: Item, fd: int, ghost rec: Recs, ghost done: set<Item>)
    requires item in rec && rec[item].home.On? && Chains(rec) && Fields(Forget(rec, done, fd))
    modifies rec.Keys`fd
    ensures Fields(Forget(rec, done + {item} + Elems(rec[item].dups), fd))
  {
    hide Fields, Forget;
    ForgetOne(item, fd, rec, done);
    var dupes := item.duplicates;
    ghost var n, ds := 0, rec[item].dups;
    ghost var seen: set<Item> := {};
    assert done + {item} + {} == done + {item};
    while dupes != null
      invariant 0 <= n <= |ds| && dupes == if n < |ds| then ds[n] else null
      invariant seen == Elems(ds[..n])
      invariant Fields(Forget(rec, done + {item} + seen, fd))
      decreases |ds| - n
    {
      ForgetOne(dupes, fd, rec, done + {item} + seen);
      assert done + {item} + seen + {dupes} == done + {item} + (seen + {dupes});
      seen := seen + {dupes};
      dupes := dupes.duplicates;
      n := n + 1;
    }
    assert ds[..n] == ds;
  }

  method ForgetList(head: Item, fd: int, ghost l: seq<Item>, ghost rec: Recs, ghost done: set<Item>)
    requires Ring(head, l) && head !in l && forall i :: 0 <= i < |l| ==> l[i] in rec && rec[l[i]].home.On?
    requires Chains(rec) && Fields(Forget(rec, done, fd))
    modifies rec.Keys`fd
    ensures Fields(Forget(rec, done + Covered(l, |l|, rec), fd))
  {
    hide Fields, Forget, Chains;
    var item := head.next;
    ghost var n := 0;
    assert done + {} == done;
    while item != head
      invariant 0 <= n <= |l| && item == if n < |l| then l[n] else head
      invariant Fields(Forget(rec, done + Covered(l, n, rec), fd))
      decreases |l| - n
    {
      ForgetChain(item, fd, rec, done + Covered(l, n, rec));
      assert done + Covered(l, n + 1, rec) == done + Covered(l, n, rec) + {item} + Elems(rec[item].dups);
      item := item.next;
      n := n + 1;
    }
  }

  lemma CoveredHas(l: seq<Item>, n: nat, rec: Recs, i: nat)
    requires i < n <= |l| && forall i :: 0 <= i < |l| ==> l[i] in rec
    ensures l[i] in Covered(l, n, rec) && forall d :: d in rec[l[i]].dups ==> d in Covered(l, n, rec)
  {
  }

  /** Since nothing on the dirty list holds a descriptor or has duplicates, visiting the five
      other lists is enough. */
  lemma ForgetIsClear(s: State<Item>, done: set<Item>, fd: int)
    requires Inv(s)
    requires forall q :: 0 <= q < 6 && q != DIRTY ==> Covered(s.lists[q], |s.lists[q]|, s.rec) <= done
    ensures Forget(s.rec, done, fd) == Clear(s, fd).rec
  {
    forall t | t in s.rec && s.rec[t].home != On(DIRTY) ensures t in done {
      var p: Item := if s.rec[t].home.On? then t else s.rec[t].home.p;
      var q := s.rec[p].home.q;
      assert p in s.lists[q];
      var i :| 0 <= i < |s.lists[q]| && s.lists[q][i] == p;
      CoveredHas(s.lists[q], |s.lists[q]|, s.rec, i);
    }
  }

  lemma ClearFacts(heads: seq<Item>, s: State<Item>, fd: int)
    requires Inv(s) && HeadsOk(heads, s.rec)
    ensures var s' := Clear(s, fd);
            && s'.lists == s.lists && s'.stats == s.stats
            && Inv(s') && HeadsOk(heads, s'.rec) && AllNodes(heads, s'.lists) <= Footprint(heads, s'.rec)
  {
    ClearKeepsInv(s, fd);
    InvFacts(heads, Clear(s, fd));
  }

  lemma ChainsOfCleared(s: State<Item>, fd: int)
    requires Chains(s.rec)
    ensures Chains(Clear(s, fd).rec)
  {
  }

  lemma IndexOfCleared(entries: seq<seq<Item>>, s: State<Item>, fd: int)
    requires IndexAgrees(entries, s.rec)
    ensures IndexAgrees(entries, Clear(s, fd).rec)
  {
  }

  // ------------------------------------------------------------ the index follows the records

  lemma IndexOfChanged(entries: seq<seq<Item>>, rec: Recs, t: Item, r: Rec<Item>)
    requires IndexAgrees(entries, rec) && t in rec && rec[t].home.On? && r.home.On? && r.req == rec[t].req
    ensures IndexAgrees(entries, rec[t := r])
  {
  }

  lemma IndexOfDuplicate(entries: seq<seq<Item>>, rec: Recs, t: Item, r: Rec<Item>)
    requires IndexAgrees(entries, rec) && t !in rec && r.home.DupOf?
    ensures IndexAgrees(entries, rec[t := r])
  {
  }

  lemma IndexOfListed(entries: seq<seq<Item>>, rec: Recs, t: Item, r: Rec<Item>)
    requires IndexAgrees(entries, rec) && t !in rec && r.home.On? && r.req == t.req
    ensures var b := BucketOf(KeyOf(t.req)); IndexAgrees(entries[b := entries[b] + [t]], rec[t := r])
  {
    var b := BucketOf(KeyOf(t.req));
    assert forall i :: 0 <= i < |entries[b]| ==> entries[b][i] != t;
    assert t in entries[b] + [t];
  }

  lemma DropOne<T>(e: seq<T>, k: nat)
    requires NoDup(e) && k < |e|
    ensures var e' := e[..k] + e[k + 1..];
            NoDup(e') && e[k] !in e' && forall x :: x in e && x != e[k] ==> x in e'
  {
    var e' := e[..k] + e[k + 1..];
    forall x | x in e && x != e[k] ensures x in e' {
      var i :| 0 <= i < |e| && e[i] == x;
      assert e'[if i < k then i else i - 1] == x;
    }
  }

  lemma IndexOfRemoved(entries: seq<seq<Item>>, rec: Recs, rec': Recs, t: Item, k: nat)
    requires IndexAgrees(entries, rec) && t in rec && rec[t].home.On?
    requires var e := entries[BucketOf(KeyOf(t.req))]; k < |e| && e[k] == t
    requires Shrunk(rec, rec', t)
    ensures var b := BucketOf(KeyOf(t.req)); IndexAgrees(entries[b := entries[b][..k] + entries[b][k + 1..]], rec')
  {
    hide BucketOf, KeyOf;
    DropOne(entries[BucketOf(KeyOf(t.req))], k);
  }

  /** The hashed lookup and the scan of all six lists find the same item. */
  lemma LookupIsScan(entries: seq<seq<Item>>, s: State<Item>, item: Item, r: Item?)
    requires ListsOk(s) && KeysOk(s) && IndexAgrees(entries, s.rec) && Fields(s.rec)
    requires var b := BucketOf(KeyOf(item.req));
             if r != null then r in entries[b] && KeyOf(r.req) == KeyOf(item.req)
             else forall i :: 0 <= i < |entries[b]| ==> KeyOf(entries[b][i].req) != KeyOf(item.req)
    ensures Find(s, KeyOf(item.req)) == if r == null then None else Some(r)
  {
    FindIsExact(s, KeyOf(item.req));
    forall t | t in s.rec && s.rec[t].home.On? ensures r == null ==> KeyOf(s.rec[t].req) != KeyOf(item.req) {
      assert t in entries[BucketOf(KeyOf(t.req))];
    }
  }

  // ------------------------------------------------------------ finished chains

  /** The fields of the items of a chain, in walking order, are as their records say. */
  ghost predicate ChainStands(chain: seq<Item>, rec: Recs)
    reads chain`duplicates, chain`fd
  {
    && (forall i {:trigger chain[i].duplicates} :: 0 <= i < |chain| ==>
          chain[i].duplicates == if i + 1 < |chain| then chain[i + 1] else null)
    && (forall i :: 0 <= i < |chain| ==>
          chain[i] in rec && chain[i].req == rec[chain[i]].req && chain[i].fd == rec[chain[i]].fd)
  }

  /** What a finished item's chain looks like, before it is taken off the queue. */
  lemma ChainFacts(s: State<Item>, item: Item) returns (chain: seq<Item>)
    requires ChainsOk(s) && Fields(s.rec) && Chains(s.rec) && item in s.rec && s.rec[item].home.On?
    ensures chain == [item] + s.rec[item].dups && NoDup(chain) && ChainStands(chain, s.rec)
  {
    chain := [item] + s.rec[item].dups;
    assert DupChain(item, s.rec[item].dups);
  }

  /** Walk a chain, answering and freeing item after item; `freed` lists them in order. */
  method WalkChain(item: Item, rsp: Cmd, ghost chain: seq<Item>, ghost rec: Recs)
    returns (sent: seq<Message>, ghost freed: seq<Item>)
    requires ChainStands(chain, rec) && chain != [] && chain[0] == item
    ensures freed == chain && sent == Replies(rec, chain, rsp)
  {
    var cur: Item? := item;
    sent, freed := [], [];
    while cur != null
      invariant |freed| <= |chain| && freed == chain[..|freed|]
      invariant cur == if |freed| < |chain| then chain[|freed|] else null
      invariant sent == Replies(rec, freed, rsp)
      decreases |chain| - |freed|
    {
      ghost var before := freed;
      if cur.fd != FD_INVALID && IsRenderCmd(cur.req.cmd) {
        sent := sent + [Message(cur.fd, cur.req.(cmd := rsp))];
      }
      freed := chain[..|freed| + 1];
      assert freed[..|freed| - 1] == before;
      cur := cur.duplicates;
    }
  }

  // ------------------------------------------------------------ the queue

  class RequestQueue {
    const heads: seq<Item>
    const index: Index
    var reqPrioNum: int
    var reqNum: int
    var reqLowNum: int
    var dirtyNum: int
    var reqBulkNum: int
    var stats: Stats
    ghost var abs: State<Item>

    ghost predicate Counters(lists: seq<seq<Item>>)
      reads this`reqPrioNum, this`reqNum, this`reqLowNum, this`dirtyNum, this`reqBulkNum
    {
      && |lists| == 6
      && reqPrioNum == |lists[PRIO]| && reqNum == |lists[REQUEST]| && reqLowNum == |lists[LOW]|
      && dirtyNum == |lists[DIRTY]| && reqBulkNum == |lists[BULK]|
    }

    /** Everything but the counters. */
    ghost predicate Linked()
      reads this`abs, Footprint(heads, abs.rec), index, index.cells
    {
      && Inv(abs)
      && HeadsOk(heads, abs.rec)
      && AllRings(heads, abs.lists)
      && Fields(abs.rec)
      && Chains(abs.rec)
      && index.Valid()
      && IndexAgrees(index.entries, abs.rec)
    }

    ghost predicate Valid()
      reads this, Footprint(heads, abs.rec), index, index.cells
    {
      Linked() && Counters(abs.lists) && stats == abs.stats
    }

    /** The links already stand as `s` says. */
    ghost method Become(s: State<Item>)
      requires Inv(s) && HeadsOk(heads, s.rec) && AllNodes(heads, s.lists) <= Footprint(heads, s.rec)
      requires AllRings(heads, s.lists) && Fields(s.rec) && Chains(s.rec)
      requires index.Valid() && IndexAgrees(index.entries, s.rec)
      modifies this`abs
      ensures Linked() && abs == s
    {
      hide Inv, ChainsOk, KeysOk, AllRings, Fields, Chains, IndexAgrees, HeadsOk, Index.Valid;
      abs := s;
    }

    constructor ()
      ensures Valid() && abs == Empty()
      ensures fresh(index) && fresh(index.cells) && |heads| == 6 && forall q :: 0 <= q < 6 ==> fresh(heads[q])
    {
      var hs: seq<Item> := [];
      while |hs| < 6
        invariant |hs| <= 6 && NoDup(hs)
        invariant forall q {:trigger hs[q]} :: 0 <= q < |hs| ==> fresh(hs[q]) && Ring(hs[q], [])
      {
        var h := new Item(Request(0, CmdIgnore, 0, 0, 0, "", "", ""), FD_INVALID);
        h.next, h.prev := h, h;
        hs := hs + [h];
      }
      heads := hs;
      index := new Index();
      reqPrioNum, reqNum, reqLowNum, dirtyNum, reqBulkNum := 0, 0, 0, 0, 0;
      stats := Empty<Item>().stats;
      abs := Empty();
    }

    /** Pick the front item of the most urgent class, null if all are empty, and count it off. */
    method TakeNext() returns (item: Item?, ghost q: Queue)
      requires AllRings(heads, abs.lists) && Counters(abs.lists) && StatsOk(stats)
      modifies this`reqPrioNum, this`reqNum, this`reqLowNum, this`dirtyNum, this`reqBulkNum, this`stats
      ensures Idle(abs) ==> item == null && Counters(abs.lists) && stats == old(stats)
      ensures !Idle(abs) ==>
                && q == NextClass(abs) && item == abs.lists[q][0]
                && Counters(abs.lists[q := abs.lists[q][1..]])
                && stats == old(stats).(fetched := old(stats).fetched[q := old(stats).fetched[q] + 1])
    {
      item, q := null, BULK;
      if reqPrioNum > 0 {
        item := heads[PRIO].next;
        reqPrioNum := reqPrioNum - 1;
        q := PRIO;
        stats := stats.(fetched := stats.fetched[PRIO := stats.fetched[PRIO] + 1]);
      } else if reqNum > 0 {
        item := heads[REQUEST].next;
        reqNum := reqNum - 1;
        q := REQUEST;
        stats := stats.(fetched := stats.fetched[REQUEST := stats.fetched[REQUEST] + 1]);
      } else if reqLowNum > 0 {
        item := heads[LOW].next;
        reqLowNum := reqLowNum - 1;
        q := LOW;
        stats := stats.(fetched := stats.fetched[LOW := stats.fetched[LOW] + 1]);
      } else if dirtyNum > 0 {
        item := heads[DIRTY].next;
        dirtyNum := dirtyNum - 1;
        q := DIRTY;
        stats := stats.(fetched := stats.fetched[DIRTY := stats.fetched[DIRTY] + 1]);
      } else if reqBulkNum > 0 {
        item := heads[BULK].next;
        reqBulkNum := reqBulkNum - 1;
        stats := stats.(fetched := stats.fetched[BULK := stats.fetched[BULK] + 1]);
      }
    }

    method Relink(item: Item, ghost q: Queue, ghost fp: set<Item>)
      requires AllRings(heads, abs.lists) && Separate(heads, abs.lists) && Fields(abs.rec)
      requires |heads| == 6 && IsClass(q) && |abs.lists[q]| > 0 && item == abs.lists[q][0]
      requires item in abs.rec && abs.rec[item].home.On?
      requires item in fp && Nodes(heads[q], abs.lists[q]) <= fp && Nodes(heads[RENDER], abs.lists[RENDER]) <= fp
      modifies fp`next, fp`prev, fp`inQueue
      ensures AllRings(heads, abs.lists[q := abs.lists[q][1..]][RENDER := [item] + abs.lists[RENDER]])
      ensures Fields(abs.rec[item := abs.rec[item].(home := On(RENDER))])
    {
      MoveFront(heads, abs.lists, q, RENDER, item);
      MarkRendering(item, abs.rec);
    }

    /** Move the front item of class `q` to the front of the render list. */
    method Advance(item: Item, ghost q: Queue)
      requires Linked() && IsClass(q) && |abs.lists[q]| > 0 && item == abs.lists[q][0]
      modifies this`abs, Footprint(heads, abs.rec)
      ensures Linked() && abs == old(FetchFrom(abs, q))
    {
      hide Inv, ListsOk, ChainsOk, KeysOk, AllRings, Fields, Chains, IndexAgrees, HeadsOk, Index.Valid, Separate;
      FetchFacts(heads, abs, q);
      IndexOfChanged(index.entries, abs.rec, item, abs.rec[item].(home := On(RENDER)));
      ChainsOfChanged(abs.rec, item, abs.rec[item].(home := On(RENDER)));
      Relink(item, q, Footprint(heads, abs.rec));
      abs := FetchFrom(abs, q);
    }

    /** One pass of request_queue_fetch_request; null where the thread would go to sleep. */
    method FetchRequest() returns (item: Item?)
      requires Valid()
      modifies this, Footprint(heads, abs.rec)
      ensures Valid()
      ensures old(Idle(abs)) ==> item == null && abs == old(abs)
      ensures !old(Idle(abs)) ==> (abs, item) == old(Fetch(abs))
    {
      hide Inv, ListsOk, ChainsOk, KeysOk, AllRings, Fields, Chains, IndexAgrees, HeadsOk, Index.Valid;
      InvFacts(heads, abs);
      ghost var q;
      item, q := TakeNext();
      if item != null {
        Advance(item, q);
      }
    }

    /** Hang `item` onto the listed item `p`. */
    method JoinTo(item: Item, p: Item)
      requires Linked() && item !in Footprint(heads, abs.rec)
      requires Find(abs, KeyOf(item.req)) == Some(p) && abs.rec[p].home.q != DIRTY && abs.rec[p].home.q != BULK
      modifies this`abs, Footprint(heads, abs.rec)`duplicates, item`duplicates, item`inQueue
      ensures Linked() && p in old(abs.rec) && abs == old(Join(abs, item, item.req, item.fd, item.originatedQueue, p))
    {
      hide Inv, ListsOk, ChainsOk, KeysOk, AllRings, Fields, Chains, IndexAgrees, HeadsOk, Index.Valid, Find, KeyOf;
      InvFacts(heads, abs);
      JoinFacts(heads, abs, item, item.fd, item.originatedQueue, p);
      ghost var r := abs.rec[p].(dups := [item] + abs.rec[p].dups);
      IndexOfChanged(index.entries, abs.rec, p, r);
      ghost var d := Rec(item.req, item.fd, item.originatedQueue, DupOf(p), []);
      IndexOfDuplicate(index.entries, abs.rec[p := r], item, d);
      HangOnto(item, p, abs.rec);
      MarkDuplicate(item, p, abs.rec);
      abs := Join(abs, item, item.req, item.fd, item.originatedQueue, p);
    }

    /** List `item` at the tail of class `q`, and in the index. */
    method Enlist(item: Item, q: Queue)
      requires Linked() && item !in Footprint(heads, abs.rec) && item.duplicates == null
      requires Find(abs, KeyOf(item.req)) == None && IsClass(q) && |abs.lists[q]| < Limit(q)
      modifies this`abs, Footprint(heads, abs.rec)`next, Footprint(heads, abs.rec)`prev
      modifies item`next, item`prev, item`inQueue, item`originatedQueue, item`fd
      modifies index`chains, index`entries, index`cells, index.cells`next, index.cells`item
      ensures Linked() && fresh(index.cells - old(index.cells))
      ensures abs == old(Admit(abs, item, item.req, item.fd, q))
    {
      hide Inv, ListsOk, ChainsOk, KeysOk, AllRings, Fields, Chains, IndexAgrees, HeadsOk, Index.Valid, Separate,
           Find, KeyOf, BucketOf;
      InvFacts(heads, abs);
      AdmitFacts(heads, abs, item, item.fd, q);
      ghost var s := Admit(abs, item, item.req, item.fd, q);
      ghost var r := s.rec[item];
      IndexOfListed(index.entries, abs.rec, item, r);
      ChainsOfListed(abs.rec, item, r);
      MarkListed(item, q, abs.rec);
      AppendTo(heads, abs.lists, q, item);
      index.Insert(item);
      Become(s);
    }

    /** If the metatile is already wanted, join the item that wants it where that can still
        be answered; CmdRender means the request is new. */
    method Pending(item: Item) returns (status: Cmd)
      requires Linked() && item !in Footprint(heads, abs.rec) && item.duplicates == null
      modifies this`abs, Footprint(heads, abs.rec)`duplicates, item`duplicates, item`inQueue
      ensures Linked()
      ensures match old(Find(abs, KeyOf(item.req))) {
                case None => status == CmdRender && abs == old(abs) && item.duplicates == null
                case Some(p) =>
                  p in old(abs.rec) && old(abs).rec[p].home.On? &&
                  if old(abs).rec[p].home.q == DIRTY || old(abs).rec[p].home.q == BULK
                  then status == CmdNotDone && abs == old(abs)
                  else status == CmdIgnore && abs == old(Join(abs, item, item.req, item.fd, item.originatedQueue, p))
              }
    {
      hide Inv, ListsOk, ChainsOk, KeysOk, AllRings, Chains, IndexAgrees, HeadsOk, Index.Valid, Find, KeyOf, BucketOf,
           Join;
      InvFacts(heads, abs);
      var found := index.Lookup(item);
      LookupIsScan(index.entries, abs, item, found);
      FindIsExact(abs, KeyOf(item.req));
      if found != null {
        if found.inQueue == RENDER || found.inQueue == REQUEST || found.inQueue == PRIO || found.inQueue == LOW {
          JoinTo(item, found);
          return CmdIgnore;
        } else if found.inQueue == DIRTY || found.inQueue == BULK {
          return CmdNotDone;
        }
      }
      return CmdRender;
    }

    /** Choose the list for a new request and count it in; -1 if there is no room anywhere. */
    method Choose(cmd: Cmd) returns (q: int)
      requires Counters(abs.lists)
      modifies this`reqPrioNum, this`reqNum, this`reqLowNum, this`dirtyNum, this`reqBulkNum
      ensures match Place(abs, cmd) {
                case Admitted(q') => q == q' && forall t :: Counters(abs.lists[q := abs.lists[q] + [t]])
                case Dropped => q == -1 && Counters(abs.lists)
                case _ => false
              }
      ensures q == PRIO <==> cmd == CmdRenderPrio && |abs.lists[PRIO]| < 256
      ensures q == REQUEST <==> cmd == CmdRender && |abs.lists[REQUEST]| < 256
      ensures q == LOW <==> cmd == CmdRenderLow && |abs.lists[LOW]| < 256
      ensures q == BULK <==> cmd == CmdRenderBulk && |abs.lists[BULK]| < 256
      ensures q == DIRTY <==> (NoRoom(abs, cmd) || !IsRenderCmd(cmd)) && |abs.lists[DIRTY]| < 8000
    {
      if cmd == CmdRender && reqNum < REQ_LIMIT {
        q := REQUEST;
        reqNum := reqNum + 1;
      } else if cmd == CmdRenderPrio && reqPrioNum < REQ_LIMIT {
        q := PRIO;
        reqPrioNum := reqPrioNum + 1;
      } else if cmd == CmdRenderLow && reqLowNum < REQ_LIMIT {
        q := LOW;
        reqLowNum := reqLowNum + 1;
      } else if cmd == CmdRenderBulk && reqBulkNum < REQ_LIMIT {
        q := BULK;
        reqBulkNum := reqBulkNum + 1;
      } else if dirtyNum < DIRTY_LIMIT {
        q := DIRTY;
        dirtyNum := dirtyNum + 1;
      } else {
        q := -1;
      }
    }

    lemma LinkedFacts()
      requires Linked()
      ensures ListsOk(abs) && StatsOk(abs.stats) && Fields(abs.rec)
    {
    }

    method CountDrop()
      requires Linked() && stats == abs.stats
      modifies this`abs, this`stats
      ensures Linked() && stats == abs.stats
      ensures abs == old(abs.(stats := abs.stats.(dropped := abs.stats.dropped + 1)))
    {
      hide Inv, ChainsOk, KeysOk, AllRings, Fields, Chains, IndexAgrees, HeadsOk, Index.Valid;
      InvFacts(heads, abs);
      stats := stats.(dropped := stats.dropped + 1);
      NewStatsKeepInv(abs, stats);
      abs := abs.(stats := stats);
    }

    /** The rest of request_queue_add_request for a metatile that nobody wants yet. */
    method ListNew(item: Item) returns (status: Cmd)
      requires Valid() && item !in Footprint(heads, abs.rec) && item.duplicates == null
      requires ListsOk(abs) && Find(abs, KeyOf(item.req)) == None
      modifies this, Footprint(heads, abs.rec), item, index, index.cells
      ensures Valid() && fresh(index.cells - old(index.cells))
      ensures status == old(Answer(Place(abs, item.req.cmd)))
      ensures match old(Place(abs, item.req.cmd)) {
                case Admitted(q) => abs == old(Admit(abs, item, item.req, item.fd, q))
                case Dropped => abs == old(abs.(stats := abs.stats.(dropped := abs.stats.dropped + 1)))
                case _ => false
              }
    {
      hide RequestQueue.Linked, ListsOk, Find, KeyOf, ClassOf;
      var q := Choose(item.req.cmd);
      if q == -1 {
        CountDrop();
        return CmdNotDone;
      }
      Enlist(item, q);
      return if q == DIRTY then CmdNotDone else CmdIgnore;
    }

    /** request_queue_add_request. */
    method AddRequest(item: Item) returns (status: Cmd)
      requires Valid() && item !in Footprint(heads, abs.rec) && item.duplicates == null
      modifies this, Footprint(heads, abs.rec), item, index, index.cells
      ensures Valid() && fresh(index.cells - old(index.cells))
      ensures abs == old(Add(abs, item, item.req, item.fd, item.originatedQueue))
      ensures status == old(Answer(Decide(abs, item.req)))
    {
      hide RequestQueue.Linked, ListsOk, Find, KeyOf, Place, RequestQueue.Counters;
      LinkedFacts();
      status := Pending(item);
      if status == CmdNotDone || status == CmdIgnore {
        return;
      }
      status := ListNew(item);
    }

    /** The statistics of request_queue_remove_request. */
    method ChargeTime(request: Item, renderTime: int)
      requires StatsOk(stats) && (renderTime > 0 ==> 0 <= request.req.z <= MAX_ZOOM)
      modifies this`stats
      ensures stats == Charge(old(stats), request.originatedQueue, request.req.z, renderTime)
    {
      if renderTime > 0 {
        var q := request.originatedQueue;
        if q == PRIO || q == REQUEST || q == LOW || q == DIRTY || q == BULK {
          stats := stats.(time := stats.time[q := stats.time[q] + renderTime]);
        }
        var z := request.req.z;
        stats := stats.(noZoom := stats.noZoom[z := stats.noZoom[z] + 1]);
        stats := stats.(timeZoom := stats.timeZoom[z := stats.timeZoom[z] + renderTime]);
      }
    }

    /** Take an item that was listed in `was`, and is no longer, out of the index. */
    method Unindex(request: Item, ghost was: State<Item>)
      requires index.Valid() && IndexAgrees(index.entries, was.rec) && KeysOk(was) && Fields(was.rec)
      requires request in was.rec && was.rec[request].home.On? && Shrunk(was.rec, abs.rec, request)
      modifies index`chains, index`entries, index`cells, index.cells`next, index.cells`item
      ensures index.Valid() && IndexAgrees(index.entries, abs.rec) && index.cells == old(index.cells)
    {
      hide KeysOk, Fields, IndexAgrees, Index.Valid, Shrunk, KeyOf, BucketOf;
      ghost var at := index.Remove(request);
      EntryIsItem(old(index.entries), was, request, at);
      IndexOfRemoved(old(index.entries), was.rec, abs.rec, request, at);
    }

    /** Unlink a listed item; its entry in the index is left for later. */
    method Unlist(request: Item, renderTime: int, ghost q: nat, ghost k: nat)
      requires Inv(abs) && HeadsOk(heads, abs.rec) && AllRings(heads, abs.lists) && Fields(abs.rec) && Chains(abs.rec)
      requires q < 6 && k < |abs.lists[q]| && abs.lists[q][k] == request
      requires renderTime > 0 ==> 0 <= request.req.z <= MAX_ZOOM
      modifies this`abs, Footprint(heads, abs.rec)`next, Footprint(heads, abs.rec)`prev
      ensures Inv(abs) && HeadsOk(heads, abs.rec) && AllRings(heads, abs.lists) && Fields(abs.rec) && Chains(abs.rec)
      ensures AllNodes(heads, abs.lists) <= Footprint(heads, abs.rec)
      ensures request in old(abs.rec) && old(abs).rec[request].home == On(q) && Shrunk(old(abs.rec), abs.rec, request)
      ensures abs == old(Remove(abs, request, renderTime)) && KeysOk(old(abs)) && Fields(old(abs).rec)
      ensures abs.lists == old(abs.lists)[q := old(abs.lists)[q][..k] + old(abs.lists)[q][k + 1..]]
    {
      hide Inv, ListsOk, ChainsOk, KeysOk, AllRings, Fields, Chains, HeadsOk, Separate, Shrunk, Remove, Nodes, AllNodes;
      InvFacts(heads, abs);
      FieldsFact(abs.rec, request);
      RemoveFacts(heads, abs, q, k, renderTime);
      ghost var s := Remove(abs, request, renderTime);
      UnlinkFrom(heads, abs.lists, q, request, k);
      FieldsOfShrunk(abs.rec, s.rec, request);
      abs := s;
    }

    /** Take a listed item, with its duplicates, off its list and out of the index. */
    method Delist(request: Item, renderTime: int, ghost q: nat, ghost k: nat)
      requires Linked() && q < 6 && k < |abs.lists[q]| && abs.lists[q][k] == request
      requires renderTime > 0 ==> 0 <= request.req.z <= MAX_ZOOM
      modifies this`abs, Footprint(heads, abs.rec)`next, Footprint(heads, abs.rec)`prev
      modifies index`chains, index`entries, index`cells, index.cells`next, index.cells`item
      ensures Linked() && index.cells == old(index.cells)
      ensures request in old(abs.rec) && old(abs).rec[request].home == On(q)
      ensures abs == old(Remove(abs, request, renderTime))
      ensures abs.lists == old(abs.lists)[q := old(abs.lists)[q][..k] + old(abs.lists)[q][k + 1..]]
    {
      hide Inv, ListsOk, ChainsOk, KeysOk, AllRings, Fields, Chains, IndexAgrees, HeadsOk, Index.Valid, Shrunk, Remove,
           AllNodes;
      ghost var was := abs;
      Unlist(request, renderTime, q, k);
      Unindex(request, was);
    }

    /** request_queue_remove_request.  It leaves the counters as they are, which is right exactly
        if the item is on the render list, as one that came from a fetch is; the code warns of
        any other. */
    method RemoveRequest(request: Item, renderTime: int)
      requires Valid() && request in abs.rec && abs.rec[request].home.On?
      requires renderTime > 0 ==> 0 <= request.req.z <= MAX_ZOOM
      modifies this, Footprint(heads, abs.rec)`next, Footprint(heads, abs.rec)`prev
      modifies index`chains, index`entries, index`cells, index.cells`next, index.cells`item
      ensures Linked() && stats == abs.stats && index.cells == old(index.cells)
      ensures abs == old(Remove(abs, request, renderTime)) && Counters(old(abs).lists)
      ensures Valid() <==> old(abs.rec[request].home) == On(RENDER)
    {
      hide RequestQueue.Linked, ListsOk, Without;
      LinkedFacts();
      ghost var q, k := ListPosition(request);
      ChargeTime(request, renderTime);
      Delist(request, renderTime, q, k);
      assert q != RENDER ==> |abs.lists[q]| == |old(abs.lists)[q]| - 1;
    }

    lemma ListPosition(t: Item) returns (q: nat, k: nat)
      requires ListsOk(abs) && Fields(abs.rec) && t in abs.rec && abs.rec[t].home.On?
      ensures q < 6 && abs.rec[t].home == On(q) && k < |abs.lists[q]| && abs.lists[q][k] == t
      ensures t.req == abs.rec[t].req && t.originatedQueue == abs.rec[t].origin
    {
      q := abs.rec[t].home.q;
      assert t in abs.lists[q];
      k :| 0 <= k < |abs.lists[q]| && abs.lists[q][k] == t;
    }

    /** Visit every list but the dirty one. */
    method ForgetLists(fd: int) returns (ghost done: set<Item>)
      requires ListsOk(abs) && HeadsOk(heads, abs.rec) && AllNodes(heads, abs.lists) <= Footprint(heads, abs.rec)
      requires AllRings(heads, abs.lists) && Fields(abs.rec) && Chains(abs.rec)
      modifies abs.rec.Keys`fd
      ensures Fields(Forget(abs.rec, done, fd))
      ensures forall q :: 0 <= q < 6 && q != DIRTY ==> Covered(abs.lists[q], |abs.lists[q]|, abs.rec) <= done
    {
      hide ListsOk, AllRings, Fields, Chains, HeadsOk, Forget, Covered, AllNodes;
      ForgetNothing(abs.rec, fd);
      RingFact(0);
      done := {};
      for i := 0 to 5
        invariant Fields(Forget(abs.rec, done, fd))
        invariant i > 0 ==> Covered(abs.lists[REQUEST], |abs.lists[REQUEST]|, abs.rec) <= done
        invariant i > 1 ==> Covered(abs.lists[RENDER], |abs.lists[RENDER]|, abs.rec) <= done
        invariant i > 2 ==> Covered(abs.lists[PRIO], |abs.lists[PRIO]|, abs.rec) <= done
        invariant i > 3 ==> Covered(abs.lists[BULK], |abs.lists[BULK]|, abs.rec) <= done
        invariant i > 4 ==> Covered(abs.lists[LOW], |abs.lists[LOW]|, abs.rec) <= done
      {
        var q := [REQUEST, RENDER, PRIO, BULK, LOW][i];
        RingFact(q);
        ForgetList(heads[q], fd, abs.lists[q], abs.rec, done);
        done := done + Covered(abs.lists[q], |abs.lists[q]|, abs.rec);
      }
    }

    /** request_queue_clear_requests_by_fd. */
    method ClearRequestsByFd(fd: int)
      requires Valid()
      modifies this`abs, Footprint(heads, abs.rec)`fd
      ensures Valid() && abs == old(Clear(abs, fd))
    {
      hide Inv, ListsOk, ChainsOk, KeysOk, AllRings, Fields, Chains, IndexAgrees, HeadsOk, Index.Valid, Forget, Clear;
      InvFacts(heads, abs);
      ghost var done := ForgetLists(fd);
      ForgetIsClear(abs, done, fd);
      ClearFacts(heads, abs, fd);
      ChainsOfCleared(abs, fd);
      IndexOfCleared(index.entries, abs, fd);
      Become(Clear(abs, fd));
    }

    lemma RingFact(q: nat)
      requires ListsOk(abs) && HeadsOk(heads, abs.rec) && AllRings(heads, abs.lists) && q < 6
      ensures |heads| == |abs.lists| == 6 && Ring(heads[q], abs.lists[q]) && heads[q] !in abs.lists[q]
      ensures forall i :: 0 <= i < |abs.lists[q]| ==> abs.lists[q][i] in abs.rec && abs.rec[abs.lists[q][i]].home.On?
    {
    }

    /** send_response: take the item off the queue, then answer and free its chain. */
    method SendResponse(item: Item, rsp: Cmd, renderTime: int) returns (sent: seq<Message>, ghost freed: seq<Item>)
      requires Valid() && item in abs.rec && abs.rec[item].home == On(RENDER)
      requires renderTime > 0 ==> 0 <= item.req.z <= MAX_ZOOM
      modifies this, Footprint(heads, abs.rec)`next, Footprint(heads, abs.rec)`prev
      modifies index`chains, index`entries, index`cells, index.cells`next, index.cells`item
      ensures Valid() && index.cells == old(index.cells)
      ensures abs == old(Remove(abs, item, renderTime))
      ensures freed == [item] + old(abs).rec[item].dups && NoDup(freed)
      ensures forall i :: 0 <= i < |freed| ==> freed[i] in old(abs.rec)
      ensures sent == Replies(old(abs.rec), freed, rsp) && AnswersAll(sent, old(abs.rec), freed, rsp)
    {
      hide AnswersAll, Inv, ListsOk, ChainsOk, KeysOk, AllRings, Fields, Chains, IndexAgrees, HeadsOk, Index.Valid,
           Replies, Remove;
      ghost var rec := abs.rec;
      InvFacts(heads, abs);
      ghost var chain := ChainFacts(abs, item);
      RemoveRequest(item, renderTime);
      InvFacts(heads, abs);
      sent, freed := WalkChain(item, rsp, chain, rec);
      RepliesAnswerAll(rec, freed, rsp);
    }
  }

  /** An item removed before it was fetched leaves a count of one item on a list that is empty. */
  method RemovedUnfetched(req: Request) returns (queue: RequestQueue)
    requires req.cmd == CmdRender
    ensures fresh(queue) && queue.abs.lists == Empty<Item>().lists && queue.reqNum == 1 && !queue.Valid()
  {
    hide RequestQueue.Linked, ListsOk;
    queue := new RequestQueue();
    var item := new Item(req, 5);
    FirstIsAdmitted(item, item.originatedQueue);
    assert forall h :: h in queue.heads ==> fresh(h);
    var status := queue.AddRequest(item);
    queue.RemoveRequest(item, -1);
  }

  lemma FirstIsAdmitted(item: Item, origin: Queue)
    requires item.req.cmd == CmdRender
    ensures ListsOk(Empty<Item>())
    ensures var s := Add(Empty(), item, item.req, item.fd, origin);
            && s == Admit(Empty(), item, item.req, item.fd, REQUEST)
            && ListsOk(s) && StatsOk(s.stats) && s.rec[item].home == On(REQUEST)
            && |s.lists[REQUEST]| == 1 && Remove(s, item, -1).lists == Empty<Item>().lists
  {
    hide KeysOk, PolicyOk, ChainsOk, KeyOf, Find, Without;
    FindIsExact(Empty<Item>(), KeyOf(item.req));
    AdmitKeepsLists(Empty(), item, item.req, item.fd, REQUEST);
    WithoutIsDrop([item], 0);
    assert Empty<Item>().lists[REQUEST] + [item] == [item];
  }
}
