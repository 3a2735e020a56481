/** renderd's request queue as a value: six lists of item names, one record per live item,
    and the statistics.  The items are named by values of any type T, so the same
    functions specify the heap implementation (T is a reference) and the daemon's
    transition system (T is an arrival number). */
module QueueSpec {
  import opened Protocol
  import opened Seqs

  const REQ_LIMIT := 256
  const DIRTY_LIMIT := 8000

  /** The values of the queue enumeration.  The five classes that threads fetch from come
      first, most urgent first; then the render list; then the mark of a duplicate. */
  const PRIO := 0
  const REQUEST := 1
  const LOW := 2
  const DIRTY := 3
  const BULK := 4
  const RENDER := 5
  const DUPLICATE := 6

  type Queue = q: int | 0 <= q <= DUPLICATE

  predicate IsClass(q: int) {
    PRIO <= q <= BULK
  }

  function Limit(q: int): nat {
    if q == DIRTY then DIRTY_LIMIT else REQ_LIMIT
  }

  /** Where a live item hangs: on a list, or in the duplicate chain of a listed item. */
  datatype Home<T> = On(q: Queue) | DupOf(p: T)

  datatype Rec<T> = Rec(req: Request, fd: int, origin: Queue, home: Home<T>, dups: seq<T>)

  /** `fetched` and `time` are indexed by class, `noZoom` and `timeZoom` by zoom level. */
  datatype Stats = Stats(fetched: seq<nat>, dropped: nat, time: seq<int>, noZoom: seq<nat>, timeZoom: seq<int>)

  datatype State<T> = State(lists: seq<seq<T>>, rec: map<T, Rec<T>>, stats: Stats)

  // ------------------------------------------------------------ well-formed states

  /** Every listed item has a record naming its list, and the other way round; since a
      record names one home, an item is on at most one list and at most once. */
  ghost predicate ListsOk<T>(s: State<T>) {
    && |s.lists| == 6
    && (forall q :: 0 <= q < 6 ==> NoDup(s.lists[q]))
    && (forall q, i :: 0 <= q < 6 && 0 <= i < |s.lists[q]| ==>
          s.lists[q][i] in s.rec && s.rec[s.lists[q][i]].home == On(q))
    && (forall t :: t in s.rec && s.rec[t].home.On? ==>
          s.rec[t].home.q != DUPLICATE && t in s.lists[s.rec[t].home.q])
  }

  /** The duplicate chains are repetition-free, pairwise disjoint, one level deep, and hang
      off listed items that ask for the same metatile. */
  ghost predicate ChainsOk<T>(s: State<T>) {
    && (forall p :: p in s.rec ==> NoDup(s.rec[p].dups))
    && (forall p, i :: p in s.rec && 0 <= i < |s.rec[p].dups| ==>
          s.rec[p].dups[i] in s.rec && s.rec[s.rec[p].dups[i]].home == DupOf(p))
    && (forall d :: d in s.rec && s.rec[d].home.DupOf? ==>
          var p := s.rec[d].home.p;
          p in s.rec && s.rec[p].home.On? && d in s.rec[p].dups && s.rec[d].dups == []
          && KeyOf(s.rec[d].req) == KeyOf(s.rec[p].req))
  }

  /** At most one listed item per metatile. */
  ghost predicate KeysOk<T>(s: State<T>) {
    forall p, p' {:trigger KeyOf(s.rec[p].req), KeyOf(s.rec[p'].req)} ::
      p in s.rec && p' in s.rec && s.rec[p].home.On? && s.rec[p'].home.On? ==>
      KeyOf(s.rec[p].req) == KeyOf(s.rec[p'].req) ==> p == p'
  }

  ghost predicate PolicyOk<T>(s: State<T>) {
    && |s.lists| == 6
    && (forall t :: t in s.rec && s.rec[t].home == On(DIRTY) ==> s.rec[t].fd == FD_INVALID)
    && (forall t :: t in s.rec && (s.rec[t].home == On(DIRTY) || s.rec[t].home == On(BULK)) ==> s.rec[t].dups == [])
    && (forall t :: t in s.rec && s.rec[t].home.On? ==>
          IsClass(s.rec[t].origin) && (s.rec[t].home.q == RENDER || s.rec[t].home.q == s.rec[t].origin))
    && (forall q :: IsClass(q) ==> |s.lists[q]| <= Limit(q))
  }

  ghost predicate StatsOk(st: Stats) {
    && |st.fetched| == |st.time| == 5
    && |st.noZoom| == |st.timeZoom| == MAX_ZOOM + 1
  }

  ghost predicate Inv<T>(s: State<T>) {
    ListsOk(s) && ChainsOk(s) && KeysOk(s) && PolicyOk(s) && StatsOk(s.stats)
  }

  lemma InvHas<T>(s: State<T>)
    requires Inv(s)
    ensures ListsOk(s) && ChainsOk(s) && PolicyOk(s) && StatsOk(s.stats) && |s.lists| == 6
  {
  }

  // ------------------------------------------------------------ the operations

  function Empty<T>(): (s: State<T>)
    ensures Inv(s) && s.rec == map[]
  {
    State([[], [], [], [], [], []], map[],
          Stats([0, 0, 0, 0, 0], 0, [0, 0, 0, 0, 0], seq(MAX_ZOOM + 1, _ => 0), seq(MAX_ZOOM + 1, _ => 0)))
  }

  /** The slow way to look for a metatile: walk a list from its front. */
  function ScanList<T(==)>(l: seq<T>, rec: map<T, Rec<T>>, key: Key): (r: Option<T>)
    requires forall i :: 0 <= i < |l| ==> l[i] in rec
    ensures r.Some? ==> r.value in l && KeyOf(rec[r.value].req) == key
    ensures r.None? ==> forall i :: 0 <= i < |l| ==> KeyOf(rec[l[i]].req) != key
  {
    if l == [] then None
    else if KeyOf(rec[l[0]].req) == key then Some(l[0])
    else ScanList(l[1..], rec, key)
  }

  /** Walk the lists one after the other, from list `q` on. */
  function ScanFrom<T(==)>(s: State<T>, q: int, key: Key): (r: Option<T>)
    requires ListsOk(s) && 0 <= q <= 6
    ensures r.Some? ==> r.value in s.rec && s.rec[r.value].home.On? && KeyOf(s.rec[r.value].req) == key
    ensures r.None? ==>
              forall q', i :: q <= q' < 6 && 0 <= i < |s.lists[q']| ==> KeyOf(s.rec[s.lists[q'][i]].req) != key
    decreases 6 - q
  {
    if q == 6 then None
    else
      var r := ScanList(s.lists[q], s.rec, key);
      if r.Some? then r else ScanFrom(s, q + 1, key)
  }

  function Find<T(==)>(s: State<T>, key: Key): Option<T>
    requires ListsOk(s)
  {
    ScanFrom(s, 0, key)
  }

  /** The scan of all six lists decides whether some listed item asks for the metatile, and
      any such item is the one it returns. */
  lemma FindIsExact<T>(s: State<T>, key: Key)
    requires ListsOk(s) && KeysOk(s)
    ensures forall t :: t in s.rec && s.rec[t].home.On? ==> (KeyOf(s.rec[t].req) == key <==> Find(s, key) == Some(t))
    ensures Find(s, key).Some? ==> Find(s, key).value in s.rec && s.rec[Find(s, key).value].home.On?
  {
    forall t | t in s.rec && s.rec[t].home.On?
      ensures KeyOf(s.rec[t].req) == key <==> Find(s, key) == Some(t)
    {
      assert t in s.lists[s.rec[t].home.q];
    }
  }

  /** What became of a request handed to the queue. */
  datatype Outcome<T> =
    | Refused             // the metatile is already queued where nobody can wait for it
    | Joined(p: T)        // hung onto the listed item p
    | Admitted(q: Queue)  // listed
    | Dropped             // no room anywhere

  function ClassOf(c: Cmd): Queue {
    match c
    case CmdRender => REQUEST
    case CmdRenderPrio => PRIO
    case CmdRenderLow => LOW
    case CmdRenderBulk => BULK
    case _ => DIRTY
  }

  function Place<T>(s: State<T>, cmd: Cmd): (o: Outcome<T>)
    requires |s.lists| == 6
    ensures o.Dropped? || (o.Admitted? && IsClass(o.q) && |s.lists[o.q]| < Limit(o.q))
  {
    var q := ClassOf(cmd);
    if |s.lists[q]| < Limit(q) then Admitted(q)
    else if |s.lists[DIRTY]| < DIRTY_LIMIT then Admitted(DIRTY)
    else Dropped
  }

  function Decide<T(==)>(s: State<T>, req: Request): (o: Outcome<T>)
    requires ListsOk(s)
    ensures o.Joined? ==> o.p in s.rec && s.rec[o.p].home.On?
  {
    match Find(s, KeyOf(req))
    case Some(p) => if s.rec[p].home.q == DIRTY || s.rec[p].home.q == BULK then Refused else Joined(p)
    case None => Place(s, req.cmd)
  }

  /** The command handed back to the receiver; CmdNotDone is answered at once. */
  function Answer<T>(o: Outcome<T>): Cmd {
    match o
    case Refused => CmdNotDone
    case Joined(_) => CmdIgnore
    case Admitted(q) => if q == DIRTY then CmdNotDone else CmdIgnore
    case Dropped => CmdNotDone
  }

  function Join<T>(s: State<T>, t: T, req: Request, fd: int, origin: Queue, p: T): State<T>
    requires p in s.rec
  {
    s.(rec := s.rec[p := s.rec[p].(dups := [t] + s.rec[p].dups)][t := Rec(req, fd, origin, DupOf(p), [])])
  }

  function Admit<T>(s: State<T>, t: T, req: Request, fd: int, q: Queue): State<T>
    requires |s.lists| == 6 && IsClass(q)
  {
    State(s.lists[q := s.lists[q] + [t]],
          s.rec[t := Rec(req, if q == DIRTY then FD_INVALID else fd, q, On(q), [])],
          s.stats)
  }

  /** request_queue_add_request.  `origin` is whatever the item's field held before, which a
      duplicate keeps. */
  function Add<T(==)>(s: State<T>, t: T, req: Request, fd: int, origin: Queue): State<T>
    requires ListsOk(s)
  {
    match Decide(s, req)
    case Refused => s
    case Joined(p) => Join(s, t, req, fd, origin, p)
    case Admitted(q) => Admit(s, t, req, fd, q)
    case Dropped => s.(stats := s.stats.(dropped := s.stats.dropped + 1))
  }

  predicate Idle<T>(s: State<T>)
    requires |s.lists| == 6
  {
    forall q :: 0 <= q < 5 ==> |s.lists[q]| == 0
  }

  function NextClass<T>(s: State<T>): (q: Queue)
    requires |s.lists| == 6 && !Idle(s)
    ensures IsClass(q) && |s.lists[q]| > 0
    ensures forall q' :: 0 <= q' < q ==> |s.lists[q']| == 0
  {
    if |s.lists[PRIO]| > 0 then PRIO
    else if |s.lists[REQUEST]| > 0 then REQUEST
    else if |s.lists[LOW]| > 0 then LOW
    else if |s.lists[DIRTY]| > 0 then DIRTY
    else BULK
  }

  /** Move the front item of class `q` to the front of the render list. */
  function FetchFrom<T>(s: State<T>, q: Queue): State<T>
    requires ListsOk(s) && StatsOk(s.stats) && IsClass(q) && |s.lists[q]| > 0
  {
    var t := s.lists[q][0];
    State(s.lists[q := s.lists[q][1..]][RENDER := [t] + s.lists[RENDER]],
          s.rec[t := s.rec[t].(home := On(RENDER))],
          s.stats.(fetched := s.stats.fetched[q := s.stats.fetched[q] + 1]))
  }

  /** request_queue_fetch_request once something is queued. */
  function Fetch<T>(s: State<T>): (State<T>, T)
    requires ListsOk(s) && StatsOk(s.stats) && !Idle(s)
  {
    (FetchFrom(s, NextClass(s)), s.lists[NextClass(s)][0])
  }

  function Without<T(==)>(l: seq<T>, t: T): (r: seq<T>)
    ensures forall i :: 0 <= i < |r| ==> r[i] in l && r[i] != t
    ensures forall i :: 0 <= i < |l| ==> l[i] == t || l[i] in r
    ensures |r| <= |l| && (NoDup(l) ==> NoDup(r))
  {
    if l == [] then []
    else if l[0] == t then Without(l[1..], t)
    else
      var r' := Without(l[1..], t);
      assert forall i :: 0 <= i < |r'| ==> r'[i] in l[1..];
      [l[0]] + r'
  }

  function Charge(st: Stats, origin: Queue, z: int, time: int): (r: Stats)
    requires StatsOk(st) && (time > 0 ==> 0 <= z <= MAX_ZOOM)
    ensures StatsOk(r)
  {
    if time <= 0 then st
    else st.(time := if IsClass(origin) then st.time[origin := st.time[origin] + time] else st.time,
             noZoom := st.noZoom[z := st.noZoom[z] + 1],
             timeZoom := st.timeZoom[z := st.timeZoom[z] + time])
  }

  /** request_queue_remove_request: off whatever list the item is on. */
  function Remove<T(==)>(s: State<T>, t: T, time: int): State<T>
    requires ListsOk(s) && StatsOk(s.stats) && t in s.rec && s.rec[t].home.On?
    requires time > 0 ==> 0 <= s.rec[t].req.z <= MAX_ZOOM
  {
    var q := s.rec[t].home.q;
    State(s.lists[q := Without(s.lists[q], t)],
          map x | x in s.rec && x != t && x !in s.rec[t].dups :: s.rec[x],
          Charge(s.stats, s.rec[t].origin, s.rec[t].req.z, time))
  }

  /** request_queue_clear_requests_by_fd: it walks every list but the dirty one. */
  function Clear<T>(s: State<T>, fd: int): State<T> {
    s.(rec := map t | t in s.rec ::
                if s.rec[t].fd == fd && s.rec[t].home != On(DIRTY)
                then s.rec[t].(fd := FD_INVALID) else s.rec[t])
  }

  datatype Message = Message(fd: int, body: Request)

  /** What send_response sends for one item of a finished chain. */
  function ReplyTo<T>(r: Rec<T>, rsp: Cmd): seq<Message> {
    if r.fd != FD_INVALID && IsRenderCmd(r.req.cmd) then [Message(r.fd, r.req.(cmd := rsp))] else []
  }

  function Replies<T(==)>(rec: map<T, Rec<T>>, chain: seq<T>, rsp: Cmd): seq<Message>
    requires forall i :: 0 <= i < |chain| ==> chain[i] in rec
  {
    if chain == [] then [] else Replies(rec, chain[..|chain| - 1], rsp) + ReplyTo(rec[chain[|chain| - 1]], rsp)
  }

  // ------------------------------------------------------------ every operation keeps Inv

  lemma JoinKeepsLists<T>(s: State<T>, t: T, req: Request, fd: int, origin: Queue, p: T)
    requires ListsOk(s) && t !in s.rec && p in s.rec
    ensures ListsOk(Join(s, t, req, fd, origin, p))
  {
  }

  lemma JoinKeepsChains<T>(s: State<T>, t: T, req: Request, fd: int, origin: Queue, p: T)
    requires ChainsOk(s) && t !in s.rec && p in s.rec && s.rec[p].home.On? && KeyOf(req) == KeyOf(s.rec[p].req)
    ensures ChainsOk(Join(s, t, req, fd, origin, p))
  {
    assert t !in s.rec[p].dups;
  }

  lemma JoinKeepsPolicy<T>(s: State<T>, t: T, req: Request, fd: int, origin: Queue, p: T)
    requires PolicyOk(s) && KeysOk(s) && t !in s.rec && p in s.rec && s.rec[p].home.On?
    requires s.rec[p].home.q != DIRTY && s.rec[p].home.q != BULK
    ensures PolicyOk(Join(s, t, req, fd, origin, p)) && KeysOk(Join(s, t, req, fd, origin, p))
  {
  }

  lemma AdmitKeepsLists<T>(s: State<T>, t: T, req: Request, fd: int, q: Queue)
    requires ListsOk(s) && t !in s.rec && IsClass(q)
    ensures ListsOk(Admit(s, t, req, fd, q))
  {
    assert t !in s.lists[q];
  }

  lemma AdmitKeepsChains<T>(s: State<T>, t: T, req: Request, fd: int, q: Queue)
    requires ChainsOk(s) && KeysOk(s) && |s.lists| == 6 && t !in s.rec && IsClass(q)
    requires forall p :: p in s.rec && s.rec[p].home.On? ==> KeyOf(s.rec[p].req) != KeyOf(req)
    ensures ChainsOk(Admit(s, t, req, fd, q)) && KeysOk(Admit(s, t, req, fd, q))
  {
  }

  lemma AdmitKeepsPolicy<T>(s: State<T>, t: T, req: Request, fd: int, q: Queue)
    requires PolicyOk(s) && t !in s.rec && IsClass(q) && |s.lists[q]| < Limit(q)
    ensures PolicyOk(Admit(s, t, req, fd, q))
  {
  }

  lemma AddKeepsInv<T>(s: State<T>, t: T, req: Request, fd: int, origin: Queue)
    requires Inv(s) && t !in s.rec
    ensures Inv(Add(s, t, req, fd, origin))
  {
    FindIsExact(s, KeyOf(req));
    match Decide(s, req)
    case Refused =>
    case Joined(p) =>
      JoinKeepsLists(s, t, req, fd, origin, p);
      JoinKeepsChains(s, t, req, fd, origin, p);
      JoinKeepsPolicy(s, t, req, fd, origin, p);
    case Admitted(q) =>
      AdmitKeepsLists(s, t, req, fd, q);
      AdmitKeepsChains(s, t, req, fd, q);
      AdmitKeepsPolicy(s, t, req, fd, q);
    case Dropped =>
  }

  lemma FetchKeepsLists<T>(s: State<T>, q: Queue)
    requires ListsOk(s) && StatsOk(s.stats) && IsClass(q) && |s.lists[q]| > 0
    ensures ListsOk(FetchFrom(s, q))
  {
  }

  lemma FetchKeepsChains<T>(s: State<T>, q: Queue)
    requires ListsOk(s) && ChainsOk(s) && StatsOk(s.stats) && IsClass(q) && |s.lists[q]| > 0
    ensures ChainsOk(FetchFrom(s, q))
  {
  }

  lemma FetchKeepsPolicy<T>(s: State<T>, q: Queue)
    requires ListsOk(s) && KeysOk(s) && PolicyOk(s) && StatsOk(s.stats) && IsClass(q) && |s.lists[q]| > 0
    ensures KeysOk(FetchFrom(s, q)) && PolicyOk(FetchFrom(s, q))
  {
  }

  lemma FetchKeepsInv<T>(s: State<T>, q: Queue)
    requires Inv(s) && IsClass(q) && |s.lists[q]| > 0
    ensures Inv(FetchFrom(s, q))
  {
    FetchKeepsLists(s, q);
    FetchKeepsChains(s, q);
    FetchKeepsPolicy(s, q);
  }

  lemma RemoveKeepsLists<T>(s: State<T>, t: T, time: int)
    requires ListsOk(s) && ChainsOk(s) && StatsOk(s.stats) && t in s.rec && s.rec[t].home.On?
    requires time > 0 ==> 0 <= s.rec[t].req.z <= MAX_ZOOM
    ensures ListsOk(Remove(s, t, time))
  {
  }

  lemma RemoveKeepsChains<T>(s: State<T>, t: T, time: int)
    requires ListsOk(s) && ChainsOk(s) && StatsOk(s.stats) && t in s.rec && s.rec[t].home.On?
    requires time > 0 ==> 0 <= s.rec[t].req.z <= MAX_ZOOM
    ensures ChainsOk(Remove(s, t, time))
  {
  }

  lemma RemoveKeepsInv<T>(s: State<T>, t: T, time: int)
    requires Inv(s) && t in s.rec && s.rec[t].home.On?
    requires time > 0 ==> 0 <= s.rec[t].req.z <= MAX_ZOOM
    ensures Inv(Remove(s, t, time))
  {
    RemoveKeepsLists(s, t, time);
    RemoveKeepsChains(s, t, time);
  }

  lemma ClearKeepsLists<T>(s: State<T>, fd: int)
    requires ListsOk(s)
    ensures ListsOk(Clear(s, fd))
  {
  }

  lemma ClearKeepsChains<T>(s: State<T>, fd: int)
    requires ChainsOk(s)
    ensures ChainsOk(Clear(s, fd))
  {
  }

  lemma ClearKeepsPolicy<T>(s: State<T>, fd: int)
    requires KeysOk(s) && PolicyOk(s)
    ensures KeysOk(Clear(s, fd)) && PolicyOk(Clear(s, fd))
  {
  }

  lemma ClearKeepsInv<T>(s: State<T>, fd: int)
    requires Inv(s)
    ensures Inv(Clear(s, fd))
  {
    ClearKeepsLists(s, fd);
    ClearKeepsChains(s, fd);
    ClearKeepsPolicy(s, fd);
  }
}
