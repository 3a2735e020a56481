/** What holds in every run of the daemon: any number of render threads, any sequence of
    steps. */
module DaemonRuns {
  import opened Protocol
  import opened QueueSpec
  import opened Daemon
  import opened DaemonSteps
  import opened Seqs

  function Init(n: nat): World {
    World(Empty(), map[], 0, seq(n, _ => Running), [], [])
  }

  lemma {:induction false} InitIsGood(n: nat)
    ensures Good(Init(n))
  {
    assert seq(MAX_ZOOM + 1, _ => 0) == [0, 0, 0, 0, 0, 0, 0, 0, 0, 0, 0, 0, 0, 0, 0, 0, 0, 0, 0, 0, 0];
    ZeroSum(Init(n).q.stats.time);
    ZeroSum(Init(n).q.stats.timeZoom);
  }

  lemma ZeroSum(s: seq<int>)
    requires forall i :: 0 <= i < |s| ==> s[i] == 0
    ensures Sum(s) == 0
  {
  }

  lemma StepKeepsGood(maps: seq<MapConfig>, w: World, step: Step)
    requires ZoomsChecked(maps) && Good(w) && Enabled(w, step)
    ensures Good(Apply(maps, w, step))
  {
    hide Good, Judge, DoAccept, DoReceive, DoDisconnect, DoFetch, DoFinish, DoSend;
    match step
    case Accept(fd) => AcceptKeeps(w, fd);
    case Receive(fd, req, woken) => ReceiveKeeps(w, fd, req, woken);
    case Disconnect(fd) => DisconnectKeeps(w, fd);
    case FetchBy(th) => FetchKeeps(w, th);
    case SpuriousWake(th) => WakeKeeps(w, th);
    case Finish(th, drawn, elapsed) => FinishKeeps(maps, w, th, drawn, elapsed);
    case SendNext(th) => SendKeeps(w, th);
  }

  /** The world after `steps`, with `n` render threads; None if some step could not happen. */
  ghost function Run(maps: seq<MapConfig>, n: nat, steps: seq<Step>): (r: Option<World>)
    requires ZoomsChecked(maps)
    ensures r.Some? ==> Good(r.value)
  {
    if steps == [] then InitIsGood(n); Some(Init(n))
    else
      var before := Run(maps, n, steps[..|steps| - 1]);
      var step := steps[|steps| - 1];
      if before.Some? && Enabled(before.value, step)
      then StepKeepsGood(maps, before.value, step); Some(Apply(maps, before.value, step))
      else None
  }

  // ------------------------------------------------------------ replies

  /** A request is answered at most once.  The answer carries the request back as it came in,
      with only the command changed: its own coordinates, even when another tile of the
      metatile was what got rendered.  And it went out on the request's own connection unless
      that is closed by now. */
  lemma AnsweredAtMostOnce(maps: seq<MapConfig>, n: nat, steps: seq<Step>, id: nat)
    requires ZoomsChecked(maps) && Run(maps, n, steps).Some? && id < |Run(maps, n, steps).value.ledger|
    ensures var w := Run(maps, n, steps).value; var e := w.ledger[id];
            && |e.replies| <= 1
            && (|e.replies| == 1 ==>
                  var a := e.replies[0];
                  && (a.msg.x, a.msg.y, a.msg.z, a.msg.xmlname) == (e.req.x, e.req.y, e.req.z, e.req.xmlname)
                  && (Open(w.slots, e) ==> a.to == Some(e.conn)))
  {
    hide Inv, QueueMatches, HandsOk, DetachedOk, NoLostWakeUp, InOrder, TimesBalance, Apply, Enabled;
    var w := Run(maps, n, steps).value;
    assert EntryOk(w.slots, w.accepted, w.ledger[id]);
  }

  /** Once a render request has run its course while its connection stayed open, it has been
      answered exactly once, to that connection. */
  lemma AnsweredExactlyOnce(maps: seq<MapConfig>, n: nat, steps: seq<Step>, id: nat)
    requires ZoomsChecked(maps) && Run(maps, n, steps).Some? && id < |Run(maps, n, steps).value.ledger|
    requires var w := Run(maps, n, steps).value; var e := w.ledger[id];
             e.stage == Freed && Open(w.slots, e) && (IsRenderCmd(e.req.cmd) || AtOnce(e.verdict))
    ensures var e := Run(maps, n, steps).value.ledger[id]; |e.replies| == 1 && e.replies[0].to == Some(e.conn)
  {
    hide Inv, QueueMatches, HandsOk, DetachedOk, NoLostWakeUp, InOrder, TimesBalance, Apply, Enabled;
    var w := Run(maps, n, steps).value;
    assert EntryOk(w.slots, w.accepted, w.ledger[id]);
  }

  /** The immediate NotDone goes to exactly the requests that were rejected, refused, dropped
      or put on the dirty list, and to those always. */
  lemma NotDoneAtOnceExactly(maps: seq<MapConfig>, n: nat, steps: seq<Step>, id: nat)
    requires ZoomsChecked(maps) && Run(maps, n, steps).Some? && id < |Run(maps, n, steps).value.ledger|
    ensures var e := Run(maps, n, steps).value.ledger[id];
            (|e.replies| == 1 && e.replies[0].immediate && e.replies[0].msg.cmd == CmdNotDone) <==>
            (e.verdict == Rejected || e.verdict == Handed(Refused) || e.verdict == Handed(Dropped)
             || e.verdict == Handed(Admitted(DIRTY)))
  {
    hide Inv, QueueMatches, HandsOk, DetachedOk, NoLostWakeUp, InOrder, TimesBalance, Apply, Enabled;
    var w := Run(maps, n, steps).value;
    assert EntryOk(w.slots, w.accepted, w.ledger[id]);
  }

  /** What SendNext sends for the item at the head of a chain goes to the item's own
      connection if and only if that connection is still open at this moment. */
  lemma DeliveredExactlyWhileOpen(w: World, th: nat)
    requires Good(w) && th < |w.threads| && w.threads[th].Replying?
    ensures var c := w.threads[th].chain; c != [] && c[0].id < |w.ledger|
    ensures var c := w.threads[th].chain[0]; var e := w.ledger[c.id];
            c.fd != FD_INVALID ==>
              && IsRenderCmd(e.req.cmd) && |DoSend(w, th).ledger[c.id].replies| == 1
              && (DoSend(w, th).ledger[c.id].replies[0].to == Some(e.conn) <==> Open(w.slots, e))
  {
    hide Inv, QueueMatches, HandsOk, DetachedOk, NoLostWakeUp, InOrder, TimesBalance;
    ChainHead(w.threads, w.slots, w.ledger, th);
    assert EntryOk(w.slots, w.accepted, w.ledger[w.threads[th].chain[0].id]);
  }

  /** In the window between leaving the queue and being sent, a reply is out of reach of the
      disconnect handling: if just then the connection closes and the next one gets its
      descriptor, that one receives the reply. */
  lemma ReusedDescriptorGetsReply(w: World, th: nat)
    requires Good(w) && th < |w.threads| && w.threads[th].Replying? && |w.slots| < MAX_CONNECTIONS
    requires var c := w.threads[th].chain[0]; c.id < |w.ledger| && c.fd != FD_INVALID && Open(w.slots, w.ledger[c.id])
    ensures var c := w.threads[th].chain[0]; var e := w.ledger[c.id];
            && Enabled(w, Disconnect(e.fd))
            && var w1 := DoDisconnect(w, e.fd);
            && Good(w1) && Enabled(w1, Accept(e.fd))
            && var w2 := DoAccept(w1, e.fd);
            && Good(w2) && Enabled(w2, SendNext(th)) && w2.threads[th].chain == w.threads[th].chain
            && var sent := DoSend(w2, th).ledger[c.id].replies;
            && |sent| == 1 && sent[0].to == Some(w.accepted) && e.conn < w.accepted
            && DoSend(w2, th).ledger[c.id].conn == e.conn
  {
    hide Inv, ListsOk, QueueMatches, HandsOk, NoLostWakeUp, InOrder, TimesBalance, DetachedOk, Clear, Judge;
    ChainHead(w.threads, w.slots, w.ledger, th);
    var c := w.threads[th].chain[0];
    var e := w.ledger[c.id];
    assert EntryOk(w.slots, w.accepted, e);
    DisconnectKeeps(w, e.fd);
    var w1 := DoDisconnect(w, e.fd);
    assert w1.slots.Keys == w.slots.Keys - {e.fd};
    assert |w1.slots.Keys| < |w.slots.Keys|;
    AcceptKeeps(w1, e.fd);
  }

  lemma RunOneMore(maps: seq<MapConfig>, n: nat, steps: seq<Step>, step: Step)
    requires ZoomsChecked(maps) && Run(maps, n, steps).Some? && Enabled(Run(maps, n, steps).value, step)
    ensures Run(maps, n, steps + [step]) == Some(Apply(maps, Run(maps, n, steps).value, step))
  {
    hide Good, Enabled, Apply;
    assert (steps + [step])[..|steps|] == steps;
  }

  // The first steps of a daemon with one thread: descriptor 5 connects and sends one request.

  const ONE_MAP := [MapConfig("default", true, 0, 20, 1, 1)]

  function Connected(): World {
    World(Empty(), map[5 := 0], 1, [Running], [], [])
  }

  function Listed(r: Request): World {
    World(Admit(Empty(), 0, r, 5, REQUEST), map[5 := 0], 1, [Running],
          [Entry(0, 5, r, Handed(Admitted(REQUEST)), Queued, [])], [])
  }

  lemma LoneRequestIsListed(r: Request)
    requires r.ver == 3 && r.cmd == CmdRender
    ensures Good(Connected()) ==>
              Enabled(Connected(), Receive(5, r, {})) && DoReceive(Connected(), 5, r, {}) == Listed(r)
  {
    hide Inv, QueueMatches, HandsOk, NoLostWakeUp, InOrder, TimesBalance, DetachedOk, LedgerOk;
    var w := Connected();
    FindIsExact(w.q, KeyOf(r));
    assert Wake(w.threads, {}) == w.threads;
    assert w.ledger + [Listed(r).ledger[0]] == Listed(r).ledger;
  }

  lemma LoneRequestIsFetched(r: Request)
    requires Good(Listed(r))
    ensures Enabled(Listed(r), FetchBy(0))
    ensures var w := DoFetch(Listed(r), 0);
            && w.threads == [Rendering(0)] && w.slots == map[5 := 0] && w.accepted == 1 && w.ledger == Listed(r).ledger
            && w.q.rec == map[0 := Rec(r, 5, REQUEST, On(RENDER), [])]
  {
    hide Inv, QueueMatches, HandsOk, NoLostWakeUp, InOrder, TimesBalance, DetachedOk, LedgerOk, Judge;
    assert |Listed(r).q.lists[REQUEST]| == 1;
  }

  lemma LoneRequestIsDetached(w: World, r: Request)
    requires Good(w) && w.threads == [Rendering(0)] && w.q.rec == map[0 := Rec(r, 5, REQUEST, On(RENDER), [])]
    requires r.xmlname == "default" && r.x == r.y == r.z == 0
    ensures Enabled(w, Finish(0, true, 1))
    ensures var w' := DoFinish(ONE_MAP, w, 0, true, 1);
            && w'.threads == [Replying(CmdDone, [Pending(0, r, 5)])] && w'.slots == w.slots && w'.accepted == w.accepted
            && |w'.ledger| == |w.ledger|
            && forall i :: 0 <= i < |w.ledger| ==>
                 w'.ledger[i].fd == w.ledger[i].fd && w'.ledger[i].conn == w.ledger[i].conn
  {
    hide Inv, ListsOk, ChainsOk, PolicyOk, QueueMatches, HandsOk, NoLostWakeUp, InOrder, TimesBalance, DetachedOk,
         LedgerOk, Judge, Remove, Dispatch;
    InvHas(w.q);
    OriginTileDraws(r);
    assert [0] + w.q.rec[0].dups == [0];
    assert PendingOf(w.q.rec, [0]) == [Pending(0, r, 5)];
    assert w.threads[0 := Replying(CmdDone, [Pending(0, r, 5)])] == [Replying(CmdDone, [Pending(0, r, 5)])];
  }

  lemma OriginTileDraws(r: Request)
    requires r.xmlname == "default" && r.x == r.y == r.z == 0
    ensures Dispatch(ONE_MAP, r, true, 1) == (CmdDone, 1)
  {
    assert Pow2(0) == 1;
  }

  lemma LoneRun(r: Request) returns (steps: seq<Step>)
    requires r.ver == 3 && r.cmd == CmdRender && r.xmlname == "default" && r.x == r.y == r.z == 0
    ensures Run(ONE_MAP, 1, steps).Some?
    ensures var w := Run(ONE_MAP, 1, steps).value;
            && w.threads == [Replying(CmdDone, [Pending(0, r, 5)])] && w.slots == map[5 := 0] && w.accepted == 1
            && |w.ledger| == 1 && w.ledger[0].fd == 5 && w.ledger[0].conn == 0
  {
    hide Good, Enabled, DoReceive, DoFetch, DoFinish, Empty, Run;
    EnabledAccept();
    RunOneMore(ONE_MAP, 1, [], Accept(5));
    steps := [] + [Accept(5)];
    assert seq(1, _ => Running) == [Running];
    LoneRequestIsListed(r);
    RunOneMore(ONE_MAP, 1, steps, Receive(5, r, {}));
    steps := steps + [Receive(5, r, {})];
    LoneRequestIsFetched(r);
    RunOneMore(ONE_MAP, 1, steps, FetchBy(0));
    steps := steps + [FetchBy(0)];
    LoneRequestIsDetached(Run(ONE_MAP, 1, steps).value, r);
    RunOneMore(ONE_MAP, 1, steps, Finish(0, true, 1));
    steps := steps + [Finish(0, true, 1)];
  }

  /** A run in which the reply to one connection's request goes to another connection. */
  lemma MisdirectedReply(r: Request) returns (steps: seq<Step>)
    requires r.ver == 3 && r.cmd == CmdRender && r.xmlname == "default" && r.x == r.y == r.z == 0
    ensures Run(ONE_MAP, 1, steps).Some?
    ensures var e := Run(ONE_MAP, 1, steps).value.ledger;
            |e| == 1 && e[0].conn == 0 && |e[0].replies| == 1 && e[0].replies[0].to == Some(1)
  {
    hide Good, Enabled, DoDisconnect, Run;
    steps := LoneRun(r);
    var w := Run(ONE_MAP, 1, steps).value;
    assert |w.slots| == 1;
    ReusedDescriptorGetsReply(w, 0);
    RunOneMore(ONE_MAP, 1, steps, Disconnect(5));
    steps := steps + [Disconnect(5)];
    RunOneMore(ONE_MAP, 1, steps, Accept(5));
    steps := steps + [Accept(5)];
    RunOneMore(ONE_MAP, 1, steps, SendNext(0));
    steps := steps + [SendNext(0)];
    assert |DoDisconnect(w, 5).ledger| == 1 by { DisconnectKeepsLedgerLength(w, 5); }
  }

  lemma DisconnectKeepsLedgerLength(w: World, fd: int)
    ensures DoDisconnect(w, fd).ledger == w.ledger
  {
  }

  lemma EnabledAccept()
    ensures Good(Init(1)) && Enabled(Init(1), Accept(5)) && Run(ONE_MAP, 1, []) == Some(Init(1))
  {
    InitIsGood(1);
  }

  // ------------------------------------------------------------ descriptors

  /** Clearing a descriptor leaves no queued item or duplicate holding it, although the dirty
      list is not visited. */
  lemma ClearForgets<T>(s: State<T>, fd: int, t: T)
    requires Inv(s) && fd != FD_INVALID && t in Clear(s, fd).rec
    ensures Clear(s, fd).rec[t].fd != fd
    ensures Clear(s, fd).rec[t].fd == if s.rec[t].fd == fd then FD_INVALID else s.rec[t].fd
  {
    hide ListsOk, ChainsOk, KeysOk;
  }

  /** Every descriptor held in the queue is that of the open connection its request came
      from. */
  lemma QueuedDescriptorsAreOpen(maps: seq<MapConfig>, n: nat, steps: seq<Step>, id: nat)
    requires ZoomsChecked(maps) && Run(maps, n, steps).Some? && id in Run(maps, n, steps).value.q.rec
    ensures var w := Run(maps, n, steps).value; var fd := w.q.rec[id].fd;
            && id < |w.ledger|
            && (fd == FD_INVALID || (fd in w.slots && fd == w.ledger[id].fd && w.slots[fd] == w.ledger[id].conn))
  {
    hide Inv, LedgerOk, HandsOk, DetachedOk, NoLostWakeUp, InOrder, TimesBalance, Apply, Enabled;
  }

  // ------------------------------------------------------------ ownership

  predicate OnList(w: World, id: nat, q: nat, i: nat) {
    q < |w.q.lists| && i < |w.q.lists[q]| && w.q.lists[q][i] == id
  }

  predicate InDups(w: World, id: nat, p: nat, i: nat) {
    p in w.q.rec && i < |w.q.rec[p].dups| && w.q.rec[p].dups[i] == id
  }

  predicate InChain(w: World, id: nat, th: nat, k: nat) {
    th < |w.threads| && w.threads[th].Replying? && k < |w.threads[th].chain| && w.threads[th].chain[k].id == id
  }

  /** Wherever a request is found says which of the three kinds of place it is in. */
  lemma PlaceTellsStage(w: World, id: nat, a: nat, i: nat)
    requires Inv(w.q) && QueueMatches(w.q.rec, w.slots, w.ledger) && DetachedOk(w.threads, w.slots, w.ledger)
    ensures OnList(w, id, a, i) ==>
              id in w.q.rec && w.q.rec[id].home == On(a) && id < |w.ledger| && w.ledger[id].stage == Queued
    ensures InDups(w, id, a, i) ==>
              id in w.q.rec && w.q.rec[id].home == DupOf(a) && id < |w.ledger| && w.ledger[id].stage == Queued
    ensures InChain(w, id, a, i) ==> id < |w.ledger| && w.ledger[id].stage == Detached(a)
  {
    hide KeysOk, PolicyOk, KeyOf;
    if InChain(w, id, a, i) {
      assert ChainOk(w.threads[a].chain, a, w.slots, w.ledger);
    }
  }

  lemma PlaceOfQueued(w: World, id: nat) returns (a: nat, i: nat)
    requires Inv(w.q) && id in w.q.rec
    ensures OnList(w, id, a, i) || InDups(w, id, a, i)
  {
    hide KeysOk, PolicyOk, KeyOf;
    var r := w.q.rec[id];
    if r.home.On? {
      a := r.home.q;
      i :| 0 <= i < |w.q.lists[a]| && w.q.lists[a][i] == id;
    } else {
      a := r.home.p;
      i :| 0 <= i < |w.q.rec[a].dups| && w.q.rec[a].dups[i] == id;
    }
  }

  /** Two sightings of the same request are one. */
  lemma PlacesAgree(w: World, id: nat, a: nat, i: nat, b: nat, j: nat)
    requires Inv(w.q) && QueueMatches(w.q.rec, w.slots, w.ledger) && DetachedOk(w.threads, w.slots, w.ledger)
    ensures OnList(w, id, a, i) && OnList(w, id, b, j) ==> a == b && i == j
    ensures InDups(w, id, a, i) && InDups(w, id, b, j) ==> a == b && i == j
    ensures InChain(w, id, a, i) && InChain(w, id, b, j) ==> a == b && i == j
    ensures !(OnList(w, id, a, i) && InDups(w, id, b, j))
    ensures !(OnList(w, id, a, i) && InChain(w, id, b, j))
    ensures !(InDups(w, id, a, i) && InChain(w, id, b, j))
  {
    PlaceTellsStage(w, id, a, i);
    PlaceTellsStage(w, id, b, j);
    NoDupHere(w, id, a, i, j);
  }

  lemma NoDupHere(w: World, id: nat, a: nat, i: nat, j: nat)
    requires Inv(w.q) && DetachedOk(w.threads, w.slots, w.ledger)
    ensures OnList(w, id, a, i) && OnList(w, id, a, j) ==> i == j
    ensures InDups(w, id, a, i) && InDups(w, id, a, j) ==> i == j
    ensures InChain(w, id, a, i) && InChain(w, id, a, j) ==> i == j
  {
    hide KeysOk, PolicyOk, KeyOf;
    if InChain(w, id, a, i) {
      assert ChainOk(w.threads[a].chain, a, w.slots, w.ledger);
    }
  }

  /** A request that was taken in is, until it is freed, in exactly one place: on one list
      once, in one duplicate chain once, or in one chain being answered once. */
  lemma InExactlyOnePlace(w: World, id: nat)
    requires Good(w) && id < |w.ledger|
    ensures w.ledger[id].stage == Queued <==> exists a, i :: OnList(w, id, a, i) || InDups(w, id, a, i)
    ensures w.ledger[id].stage.Detached? <==> exists a, i :: InChain(w, id, a, i)
    ensures forall a, i, b, j :: OnList(w, id, a, i) && OnList(w, id, b, j) ==> a == b && i == j
    ensures forall a, i, b, j :: InDups(w, id, a, i) && InDups(w, id, b, j) ==> a == b && i == j
    ensures forall a, i, b, j :: InChain(w, id, a, i) && InChain(w, id, b, j) ==> a == b && i == j
    ensures forall a, i, b, j :: !(OnList(w, id, a, i) && InDups(w, id, b, j))
  {
    hide Inv, HandsOk, LedgerOk, NoLostWakeUp, InOrder, TimesBalance, OnList, InDups, Owed;
    forall a, i
      ensures OnList(w, id, a, i) || InDups(w, id, a, i) ==> w.ledger[id].stage == Queued
      ensures InChain(w, id, a, i) ==> w.ledger[id].stage.Detached?
    {
      PlaceTellsStage(w, id, a, i);
    }
    if w.ledger[id].stage == Queued {
      var a, i := PlaceOfQueued(w, id);
    } else if w.ledger[id].stage.Detached? {
      var th := w.ledger[id].stage.th;
      var k :| 0 <= k < |w.threads[th].chain| && w.threads[th].chain[k].id == id;
      assert InChain(w, id, th, k);
    }
    forall a, i, b, j
      ensures OnList(w, id, a, i) && OnList(w, id, b, j) ==> a == b && i == j
      ensures InDups(w, id, a, i) && InDups(w, id, b, j) ==> a == b && i == j
      ensures InChain(w, id, a, i) && InChain(w, id, b, j) ==> a == b && i == j
      ensures !(OnList(w, id, a, i) && InDups(w, id, b, j))
    {
      PlacesAgree(w, id, a, i, b, j);
    }
  }

  // ------------------------------------------------------------ threads

  /** The metatile a thread is rendering is neither rendered by another thread nor queued. */
  lemma RenderedOnce(w: World, th: nat, t: nat)
    requires Good(w) && th < |w.threads| && w.threads[th].Rendering?
    requires t in w.q.rec && w.q.rec[t].home.On?
    ensures w.threads[th].id in w.q.rec
    ensures KeyOf(w.q.rec[t].req) == KeyOf(w.q.rec[w.threads[th].id].req) ==>
              t == w.threads[th].id && forall i :: 0 <= i < |w.threads| && w.threads[i] == Rendering(t) ==> i == th
  {
    hide LedgerOk, QueueMatches, DetachedOk, NoLostWakeUp, InOrder, TimesBalance, ListsOk, ChainsOk, PolicyOk, KeyOf;
  }

  lemma {:induction false} SomeSignalled(threads: seq<Thread>)
    requires CountSignalled(threads) > 0
    ensures exists th :: 0 <= th < |threads| && threads[th].Signalled?
  {
    var n := |threads| - 1;
    if !threads[n].Signalled? {
      SomeSignalled(threads[..n]);
    }
  }

  /** Nobody oversleeps: while some thread sleeps on, at least as many are signalled as items are
      queued, so if something is queued one of them can fetch it. */
  lemma WorkIsNoticed(maps: seq<MapConfig>, n: nat, steps: seq<Step>)
    requires ZoomsChecked(maps) && Run(maps, n, steps).Some?
    ensures var w := Run(maps, n, steps).value;
            (exists th :: 0 <= th < |w.threads| && w.threads[th].Sleeping?) ==>
              && |w.q.lists| == 6 && CountQueued(w.q) <= CountSignalled(w.threads)
              && (!Idle(w.q) ==>
                    exists th :: 0 <= th < |w.threads| && w.threads[th].Signalled? && Enabled(w, FetchBy(th)))
  {
    hide Inv, ListsOk, ChainsOk, PolicyOk, LedgerOk, HandsOk, QueueMatches, DetachedOk, InOrder, TimesBalance, Apply,
         Judge;
    var w := Run(maps, n, steps).value;
    InvHas(w.q);
    if !Idle(w.q) && exists th :: 0 <= th < |w.threads| && w.threads[th].Sleeping? {
      SomeSignalled(w.threads);
      var th :| 0 <= th < |w.threads| && w.threads[th].Signalled?;
      assert Enabled(w, FetchBy(th));
    }
  }

  // ------------------------------------------------------------ order and statistics

  /** Per class, requests are fetched in the order they were admitted, and admissions are
      fetches counted plus items waiting; render time booked by class and by zoom agree. */
  lemma ServedInOrder(maps: seq<MapConfig>, n: nat, steps: seq<Step>, c: nat)
    requires ZoomsChecked(maps) && Run(maps, n, steps).Some? && c < 5
    ensures var w := Run(maps, n, steps).value;
            && |w.q.lists| == 6 && |w.q.stats.fetched| == 5
            && FetchedFrom(w.ledger, w.fetches, c) <= Admissions(w.ledger, c)
            && |Admissions(w.ledger, c)| == w.q.stats.fetched[c] + |w.q.lists[c]|
            && Sum(w.q.stats.time) == Sum(w.q.stats.timeZoom)
  {
    hide Inv, LedgerOk, HandsOk, QueueMatches, DetachedOk, NoLostWakeUp, Apply, Enabled, Sum;
  }
}
