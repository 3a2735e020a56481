/** renderd as a system of atomic steps: the poll loop that accepts connections, receives
    requests and notices disconnects, and the render threads that fetch, render and answer.
    Every critical section of the request queue is one step, and so is every single send.
    A ledger records, for every request ever received, what became of it. */
module Daemon {
  import opened Protocol
  import opened QueueSpec

  // ------------------------------------------------------------ receiving

  predicate Acceptable(r: Request) {
    r.ver <= 3 && (IsRenderCmd(r.cmd) || r.cmd == CmdDirty)
  }

  // ------------------------------------------------------------ rendering

  /** What a render thread knows of a configured map. */
  datatype MapConfig = MapConfig(xmlname: string, ok: bool, minZoom: int, maxZoom: int, aspectX: int, aspectY: int)

  /** What process_map_sections lets through. */
  predicate ZoomsChecked(maps: seq<MapConfig>) {
    forall i :: 0 <= i < |maps| ==> 0 <= maps[i].minZoom <= maps[i].maxZoom <= MAX_ZOOM
  }

  predicate CheckXyz(x: int, y: int, z: int, m: MapConfig)
    requires 0 <= m.minZoom
  {
    && m.minZoom <= z <= m.maxZoom
    && 0 <= x <= Pow2(z) * m.aspectX - 1
    && 0 <= y <= Pow2(z) * m.aspectY - 1
  }

  /** The response and render time render_thread arrives at for a request: `drawn` says
      whether rendering and saving worked, `elapsed` what the clock showed. */
  function Dispatch(maps: seq<MapConfig>, r: Request, drawn: bool, elapsed: int): (o: (Cmd, int))
    requires ZoomsChecked(maps)
    ensures o.1 > 0 ==> 0 <= r.z <= MAX_ZOOM
    ensures o.0 == CmdDone || o.0 == CmdNotDone || o.0 == CmdIgnore
    ensures o.0 == CmdDone ==> drawn && exists i :: 0 <= i < |maps| && maps[i].xmlname == r.xmlname
  {
    if maps == [] then (CmdNotDone, -1)
    else if maps[0].xmlname != r.xmlname then Dispatch(maps[1..], r, drawn, elapsed)
    else if !maps[0].ok then (CmdNotDone, -1)
    else if !CheckXyz(Corner(r.x), Corner(r.y), r.z, maps[0]) then (CmdIgnore, -1)
    else (if drawn then CmdDone else CmdNotDone, elapsed)
  }

  /** A tile of the map, at one of the levels it is drawn at. */
  predicate OnMap(m: MapConfig, x: int, y: int, z: int)
    requires 0 <= m.minZoom
  {
    m.minZoom <= z <= m.maxZoom && 0 <= x < Pow2(z) * m.aspectX && 0 <= y < Pow2(z) * m.aspectY
  }

  /** The square that a request asks for has a tile on the map. */
  ghost predicate Touches(m: MapConfig, r: Request)
    requires 0 <= m.minZoom
  {
    exists x, y :: && Corner(r.x) <= x < Corner(r.x) + 8 && Corner(r.y) <= y < Corner(r.y) + 8
                   && OnMap(m, x, y, r.z)
  }

  lemma ChecksForATile(m: MapConfig, r: Request)
    requires 0 <= m.minZoom
    ensures CheckXyz(Corner(r.x), Corner(r.y), r.z, m) <==> Touches(m, r)
  {
    if CheckXyz(Corner(r.x), Corner(r.y), r.z, m) {
      assert OnMap(m, Corner(r.x), Corner(r.y), r.z);
    }
  }

  /** Map number `i` is the one that requests with this name get. */
  ghost predicate IsMapOf(maps: seq<MapConfig>, r: Request, i: int) {
    0 <= i < |maps| && maps[i].xmlname == r.xmlname && forall j :: 0 <= j < i ==> maps[j].xmlname != r.xmlname
  }

  /** The request's map is there, was loaded, and has something to draw. */
  ghost predicate Drawable(maps: seq<MapConfig>, r: Request)
    requires ZoomsChecked(maps)
  {
    exists i :: IsMapOf(maps, r, i) && maps[i].ok && Touches(maps[i], r)
  }

  ghost predicate OffTheMap(maps: seq<MapConfig>, r: Request)
    requires ZoomsChecked(maps)
  {
    exists i :: IsMapOf(maps, r, i) && maps[i].ok && !Touches(maps[i], r)
  }

  lemma OneMapLess(maps: seq<MapConfig>, r: Request)
    requires ZoomsChecked(maps) && maps != [] && maps[0].xmlname != r.xmlname
    ensures Drawable(maps, r) == Drawable(maps[1..], r) && OffTheMap(maps, r) == OffTheMap(maps[1..], r)
  {
    hide Touches;
    forall i ensures IsMapOf(maps, r, i) <==> i > 0 && IsMapOf(maps[1..], r, i - 1) {
      if i > 0 && IsMapOf(maps[1..], r, i - 1) {
        forall j | 0 <= j < i ensures maps[j].xmlname != r.xmlname {
          assert j > 0 ==> maps[j] == maps[1..][j - 1];
        }
      }
      if IsMapOf(maps, r, i) {
        assert forall j :: 0 <= j < i - 1 ==> maps[1..][j] == maps[j + 1];
      }
    }
    forall i | IsMapOf(maps[1..], r, i) ensures IsMapOf(maps, r, i + 1) {
    }
  }

  /** Done exactly if there was something to draw and it was drawn and saved, Ignore exactly if
      the map was loaded and nothing of the square is on it, NotDone in all other cases; and a
      time exactly if there was something to draw. */
  lemma {:induction false} DispatchExactly(maps: seq<MapConfig>, r: Request, drawn: bool, elapsed: int)
    requires ZoomsChecked(maps)
    ensures var (rsp, time) := Dispatch(maps, r, drawn, elapsed);
            && (rsp == CmdDone <==> drawn && Drawable(maps, r))
            && (rsp == CmdIgnore <==> OffTheMap(maps, r))
            && (rsp == CmdNotDone <==> !OffTheMap(maps, r) && !(drawn && Drawable(maps, r)))
            && time == if Drawable(maps, r) then elapsed else -1
  {
    hide CheckXyz, Touches;
    if maps != [] {
      ChecksForATile(maps[0], r);
      if maps[0].xmlname == r.xmlname {
        assert IsMapOf(maps, r, 0) && forall i :: IsMapOf(maps, r, i) ==> i == 0;
      } else {
        DispatchExactly(maps[1..], r, drawn, elapsed);
        OneMapLess(maps, r);
      }
    }
  }

  /** That is the same for all requests for one metatile. */
  lemma SameForTheSame(maps: seq<MapConfig>, a: Request, b: Request)
    requires ZoomsChecked(maps) && AskForTheSame(a, b)
    ensures Drawable(maps, a) == Drawable(maps, b) && OffTheMap(maps, a) == OffTheMap(maps, b)
  {
    forall i | 0 <= i < |maps|
      ensures Touches(maps[i], a) == Touches(maps[i], b) && IsMapOf(maps, a, i) == IsMapOf(maps, b, i)
    {
    }
  }

  // ------------------------------------------------------------ the system

  datatype Verdict = Rejected | Handed(outcome: Outcome<nat>)

  /** `to` is the connection that had the descriptor open when the reply was sent. */
  datatype Reply = Reply(to: Option<nat>, msg: Request, immediate: bool)

  datatype Stage = Queued | Detached(th: nat) | Freed

  datatype Entry = Entry(conn: nat, fd: int, req: Request, verdict: Verdict, stage: Stage, replies: seq<Reply>)

  /** An item that left the queue and still awaits its turn in send_response's walk. */
  datatype Pending = Pending(id: nat, req: Request, fd: int)

  datatype Thread =
    | Running                                  // outside the queue, nothing in hand
    | Sleeping                                 // in pthread_cond_wait
    | Signalled                                // woken, not yet back in the lock
    | Rendering(id: nat)
    | Replying(rsp: Cmd, chain: seq<Pending>)

  datatype World = World(q: State<nat>, slots: map<int, nat>, accepted: nat, threads: seq<Thread>,
                         ledger: seq<Entry>, fetches: seq<nat>)

  datatype Step =
    | Accept(fd: int)
    | Receive(fd: int, req: Request, woken: set<nat>)
    | Disconnect(fd: int)
    | FetchBy(th: nat)
    | SpuriousWake(th: nat)
    | Finish(th: nat, drawn: bool, elapsed: int)
    | SendNext(th: nat)

  predicate AtOnce(v: Verdict) {
    v.Rejected? || Answer(v.outcome) == CmdNotDone
  }

  /** The connection a request came in on is still the one behind its descriptor. */
  predicate Open(slots: map<int, nat>, e: Entry) {
    e.fd in slots && slots[e.fd] == e.conn
  }

  function Judge(q: State<nat>, r: Request): Verdict
    requires ListsOk(q)
  {
    if Acceptable(r) then Handed(Decide(q, r)) else Rejected
  }

  function FirstStage(v: Verdict): Stage {
    if v.Handed? && (v.outcome.Joined? || v.outcome.Admitted?) then Queued else Freed
  }

  function NewEntry(conn: nat, fd: int, r: Request, v: Verdict): Entry {
    Entry(conn, fd, r, v, FirstStage(v),
          if AtOnce(v) then [Reply(Some(conn), r.(cmd := CmdNotDone), true)] else [])
  }

  function ItemFd(r: Request, fd: int): int {
    if r.cmd == CmdDirty then FD_INVALID else fd
  }

  function Wake(threads: seq<Thread>, woken: set<nat>): (r: seq<Thread>)
    ensures |r| == |threads|
    ensures forall i :: 0 <= i < |r| ==> r[i] == if i in woken then Signalled else threads[i]
  {
    seq(|threads|, i requires 0 <= i < |threads| => if i in woken then Signalled else threads[i])
  }

  function Detach(ledger: seq<Entry>, chain: seq<nat>, th: nat): (r: seq<Entry>)
    ensures |r| == |ledger|
    ensures forall i :: 0 <= i < |r| ==> r[i] == if i in chain then ledger[i].(stage := Detached(th)) else ledger[i]
  {
    seq(|ledger|, i requires 0 <= i < |ledger| => if i in chain then ledger[i].(stage := Detached(th)) else ledger[i])
  }

  // ------------------------------------------------------------ the steps

  function DoAccept(w: World, fd: int): World {
    if |w.slots| < MAX_CONNECTIONS then w.(slots := w.slots[fd := w.accepted], accepted := w.accepted + 1)
    else w
  }

  function DoReceive(w: World, fd: int, req: Request, woken: set<nat>): World
    requires ListsOk(w.q) && fd in w.slots
  {
    var r := Upgrade(req);
    var v := Judge(w.q, r);
    w.(q := if v.Rejected? then w.q else Add(w.q, |w.ledger|, r, ItemFd(r, fd), DUPLICATE),
       threads := Wake(w.threads, woken),
       ledger := w.ledger + [NewEntry(w.slots[fd], fd, r, v)])
  }

  function DoDisconnect(w: World, fd: int): World {
    w.(q := Clear(w.q, fd), slots := w.slots - {fd})
  }

  function DoFetch(w: World, th: nat): World
    requires ListsOk(w.q) && StatsOk(w.q.stats) && th < |w.threads|
  {
    if Idle(w.q) then w.(threads := w.threads[th := Sleeping])
    else
      var (q', t) := Fetch(w.q);
      w.(q := q', threads := w.threads[th := Rendering(t)], fetches := w.fetches + [t])
  }

  function PendingOf(rec: map<nat, Rec<nat>>, chain: seq<nat>): (r: seq<Pending>)
    requires forall i :: 0 <= i < |chain| ==> chain[i] in rec
    ensures |r| == |chain|
    ensures forall i :: 0 <= i < |r| ==> r[i] == Pending(chain[i], rec[chain[i]].req, rec[chain[i]].fd)
  {
    seq(|chain|, i requires 0 <= i < |chain| => Pending(chain[i], rec[chain[i]].req, rec[chain[i]].fd))
  }

  function DoFinish(maps: seq<MapConfig>, w: World, th: nat, drawn: bool, elapsed: int): World
    requires ZoomsChecked(maps) && ListsOk(w.q) && ChainsOk(w.q) && StatsOk(w.q.stats)
    requires th < |w.threads| && w.threads[th].Rendering?
    requires w.threads[th].id in w.q.rec && w.q.rec[w.threads[th].id].home == On(RENDER)
  {
    var id := w.threads[th].id;
    var chain := [id] + w.q.rec[id].dups;
    var (rsp, time) := Dispatch(maps, w.q.rec[id].req, drawn, elapsed);
    w.(q := Remove(w.q, id, time),
       threads := w.threads[th := Replying(rsp, PendingOf(w.q.rec, chain))],
       ledger := Detach(w.ledger, chain, th))
  }

  function Answered(slots: map<int, nat>, e: Entry, p: Pending, rsp: Cmd): Entry {
    e.(stage := Freed,
       replies := e.replies +
         if p.fd != FD_INVALID && IsRenderCmd(p.req.cmd)
         then [Reply(if p.fd in slots then Some(slots[p.fd]) else None, p.req.(cmd := rsp), false)] else [])
  }

  function DoSend(w: World, th: nat): World
    requires th < |w.threads| && w.threads[th].Replying? && w.threads[th].chain != []
    requires w.threads[th].chain[0].id < |w.ledger|
  {
    var Replying(rsp, chain) := w.threads[th];
    w.(threads := w.threads[th := if |chain| == 1 then Running else Replying(rsp, chain[1..])],
       ledger := w.ledger[chain[0].id := Answered(w.slots, w.ledger[chain[0].id], chain[0], rsp)])
  }

  // ------------------------------------------------------------ what every run keeps

  ghost predicate SlotsOk(slots: map<int, nat>, accepted: nat) {
    && (forall fd :: fd in slots ==> fd >= 0 && slots[fd] < accepted)
    && (forall fd, fd' :: fd in slots && fd' in slots && slots[fd] == slots[fd'] ==> fd == fd')
  }

  /** The descriptor a request still waiting in the queue must hold: its own as long as its
      connection is open and an answer is owed, none otherwise. */
  function Owed(slots: map<int, nat>, e: Entry): int {
    if AtOnce(e.verdict) || e.req.cmd == CmdDirty || !Open(slots, e) then FD_INVALID else e.fd
  }

  ghost predicate EntryOk(slots: map<int, nat>, accepted: nat, e: Entry) {
    && e.conn < accepted && e.fd >= 0
    && (e.verdict.Handed? <==> Acceptable(e.req)) && e.req.ver <= 3
    && |e.replies| <= 1
    && (AtOnce(e.verdict) ==> |e.replies| == 1 && e.replies[0].immediate && e.replies[0].msg.cmd == CmdNotDone)
    && (!AtOnce(e.verdict) ==>
          && (e.stage != Freed ==> e.replies == [])
          && (|e.replies| == 1 ==> !e.replies[0].immediate && IsRenderCmd(e.req.cmd))
          && (e.stage == Freed && IsRenderCmd(e.req.cmd) && Open(slots, e) ==> |e.replies| == 1))
    && (|e.replies| == 1 ==>
          && e.replies[0].msg == e.req.(cmd := e.replies[0].msg.cmd)
          && (e.replies[0].to == Some(e.conn) || !Open(slots, e)))
  }

  ghost predicate LedgerOk(slots: map<int, nat>, accepted: nat, ledger: seq<Entry>) {
    forall id :: 0 <= id < |ledger| ==> EntryOk(slots, accepted, ledger[id])
  }

  /** The queue holds exactly the requests the ledger calls queued, as they came in, each
      with the descriptor it is owed. */
  ghost predicate QueueMatches(rec: map<nat, Rec<nat>>, slots: map<int, nat>, ledger: seq<Entry>) {
    && (forall id :: id in rec ==> id < |ledger| && ledger[id].stage == Queued)
    && (forall id :: id in rec ==> rec[id].req == ledger[id].req && rec[id].fd == Owed(slots, ledger[id]))
    && (forall id :: 0 <= id < |ledger| && ledger[id].stage == Queued ==> id in rec)
  }

  /** The items on the render list are exactly those the rendering threads have in hand, one
      thread each. */
  ghost predicate HandsOk(threads: seq<Thread>, rec: map<nat, Rec<nat>>) {
    && (forall i :: 0 <= i < |threads| && threads[i].Rendering? ==>
          threads[i].id in rec && rec[threads[i].id].home == On(RENDER))
    && (forall i, j :: 0 <= i < j < |threads| && threads[i].Rendering? && threads[j].Rendering? ==>
          threads[i].id != threads[j].id)
    && (forall id :: id in rec && rec[id].home == On(RENDER) ==>
          exists i :: 0 <= i < |threads| && threads[i] == Rendering(id))
  }

  /** A detached item still holds what it was owed when it left the queue. */
  predicate PendingOk(slots: map<int, nat>, e: Entry, p: Pending) {
    && p.req == e.req
    && (p.fd == Owed(slots, e) || (p.fd == e.fd && !Open(slots, e) && !AtOnce(e.verdict) && e.req.cmd != CmdDirty))
  }

  ghost predicate ChainOk(chain: seq<Pending>, th: nat, slots: map<int, nat>, ledger: seq<Entry>) {
    && (forall k :: 0 <= k < |chain| ==> chain[k].id < |ledger| && ledger[chain[k].id].stage == Detached(th))
    && (forall k :: 0 <= k < |chain| ==> PendingOk(slots, ledger[chain[k].id], chain[k]))
    && (forall k, k' :: 0 <= k < k' < |chain| ==> chain[k].id != chain[k'].id)
  }

  /** Every detached item is in the one chain its thread is walking, once. */
  ghost predicate DetachedOk(threads: seq<Thread>, slots: map<int, nat>, ledger: seq<Entry>) {
    && (forall th :: 0 <= th < |threads| && threads[th].Replying? ==>
          threads[th].chain != [] && ChainOk(threads[th].chain, th, slots, ledger))
    && (forall id :: 0 <= id < |ledger| && ledger[id].stage.Detached? ==>
          var th := ledger[id].stage.th;
          && th < |threads| && threads[th].Replying?
          && exists k :: 0 <= k < |threads[th].chain| && threads[th].chain[k].id == id)
  }

  function CountSignalled(threads: seq<Thread>): nat {
    if threads == [] then 0
    else CountSignalled(threads[..|threads| - 1]) + if threads[|threads| - 1].Signalled? then 1 else 0
  }

  function CountQueued(q: State<nat>): nat
    requires |q.lists| == 6
  {
    |q.lists[PRIO]| + |q.lists[REQUEST]| + |q.lists[LOW]| + |q.lists[DIRTY]| + |q.lists[BULK]|
  }

  /** No lost wake-up: while a thread sleeps on, every queued item has a woken thread on its
      way. */
  ghost predicate NoLostWakeUp(threads: seq<Thread>, q: State<nat>) {
    && |q.lists| == 6
    && (forall th :: 0 <= th < |threads| && threads[th].Sleeping? ==> CountQueued(q) <= CountSignalled(threads))
  }

  predicate AdmittedTo(e: Entry, c: int) {
    e.verdict.Handed? && e.verdict.outcome.Admitted? && e.verdict.outcome.q == c
  }

  /** The requests listed in class `c`, in order of arrival. */
  function Admissions(ledger: seq<Entry>, c: int): seq<nat> {
    if ledger == [] then []
    else
      var n := |ledger| - 1;
      Admissions(ledger[..n], c) + if AdmittedTo(ledger[n], c) then [n] else []
  }

  /** Those of the fetched requests that had been listed in class `c`, in order of fetching. */
  function FetchedFrom(ledger: seq<Entry>, fetches: seq<nat>, c: int): seq<nat> {
    if fetches == [] then []
    else
      var n := |fetches| - 1;
      FetchedFrom(ledger, fetches[..n], c) +
      if fetches[n] < |ledger| && AdmittedTo(ledger[fetches[n]], c) then [fetches[n]] else []
  }

  /** First come, first served in each class, and nothing lost: what was admitted is what was
      fetched followed by what still waits. */
  ghost predicate InOrder(q: State<nat>, ledger: seq<Entry>, fetches: seq<nat>) {
    && |q.lists| == 6 && |q.stats.fetched| == 5
    && (forall i :: 0 <= i < |fetches| ==> fetches[i] < |ledger|)
    && (forall c :: 0 <= c < 5 ==>
          && Admissions(ledger, c) == FetchedFrom(ledger, fetches, c) + q.lists[c]
          && q.stats.fetched[c] == |FetchedFrom(ledger, fetches, c)|)
  }

  function Sum(s: seq<int>): int {
    if s == [] then 0 else Sum(s[..|s| - 1]) + s[|s| - 1]
  }

  /** The render time booked to classes and the render time booked to zoom levels agree. */
  predicate TimesBalance(st: Stats) {
    Sum(st.time) == Sum(st.timeZoom)
  }

  ghost predicate Good(w: World) {
    && Inv(w.q)
    && SlotsOk(w.slots, w.accepted)
    && LedgerOk(w.slots, w.accepted, w.ledger)
    && QueueMatches(w.q.rec, w.slots, w.ledger)
    && HandsOk(w.threads, w.q.rec)
    && DetachedOk(w.threads, w.slots, w.ledger)
    && NoLostWakeUp(w.threads, w.q)
    && InOrder(w.q, w.ledger, w.fetches)
    && TimesBalance(w.q.stats)
  }

  // ------------------------------------------------------------ when a step can happen

  predicate Enabled(w: World, step: Step)
    requires ListsOk(w.q)
  {
    match step
    case Accept(fd) => fd >= 0 && fd !in w.slots
    case Receive(fd, req, woken) =>
      && fd in w.slots && 1 <= req.ver <= 3  // recv_cmd lets no other version through
      && (forall i :: i in woken ==> i < |w.threads| && w.threads[i].Sleeping?)
      && (var v := Judge(w.q, Upgrade(req));
          if v.Handed? && v.outcome.Admitted?
          then woken != {} || forall i :: 0 <= i < |w.threads| ==> !w.threads[i].Sleeping?
          else woken == {})
    case Disconnect(fd) => fd in w.slots
    case FetchBy(th) => th < |w.threads| && (w.threads[th].Running? || w.threads[th].Signalled?)
    case SpuriousWake(th) => th < |w.threads| && w.threads[th].Sleeping?
    case Finish(th, _, _) => th < |w.threads| && w.threads[th].Rendering?
    case SendNext(th) => th < |w.threads| && w.threads[th].Replying?
  }

  ghost function Apply(maps: seq<MapConfig>, w: World, step: Step): World
    requires ZoomsChecked(maps) && Good(w) && Enabled(w, step)
  {
    match step
    case Accept(fd) => DoAccept(w, fd)
    case Receive(fd, req, woken) => DoReceive(w, fd, req, woken)
    case Disconnect(fd) => DoDisconnect(w, fd)
    case FetchBy(th) => DoFetch(w, th)
    case SpuriousWake(th) => w.(threads := w.threads[th := Signalled])
    case Finish(th, drawn, elapsed) => DoFinish(maps, w, th, drawn, elapsed)
    case SendNext(th) => DoSend(w, th)
  }
}
