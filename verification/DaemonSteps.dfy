/** Every step of the daemon keeps every part of its invariant. */
module DaemonSteps {
  import opened Protocol
  import opened QueueSpec
  import opened Daemon
  import opened Seqs

  // ------------------------------------------------------------ connections come and go

  lemma AcceptKeepsOpen(slots: map<int, nat>, accepted: nat, fd: int, e: Entry)
    requires fd !in slots && e.conn < accepted
    ensures Open(slots[fd := accepted], e) <==> Open(slots, e)
  {
  }

  lemma AcceptKeeps(w: World, fd: int)
    requires Good(w) && fd >= 0 && fd !in w.slots
    ensures Good(DoAccept(w, fd))
  {
    hide Inv, HandsOk, NoLostWakeUp, InOrder, TimesBalance, Open, ChainOk;
    var slots' := w.slots[fd := w.accepted];
    forall id | 0 <= id < |w.ledger| ensures Open(slots', w.ledger[id]) <==> Open(w.slots, w.ledger[id]) {
      AcceptKeepsOpen(w.slots, w.accepted, fd, w.ledger[id]);
    }
    AcceptKeepsDetached(w.threads, w.slots, w.accepted, w.ledger, fd);
  }

  lemma AcceptKeepsDetached(threads: seq<Thread>, slots: map<int, nat>, accepted: nat, ledger: seq<Entry>, fd: int)
    requires DetachedOk(threads, slots, ledger) && fd !in slots
    requires forall id :: 0 <= id < |ledger| ==> ledger[id].conn < accepted
    ensures DetachedOk(threads, slots[fd := accepted], ledger)
  {
    forall th | 0 <= th < |threads| && threads[th].Replying?
      ensures ChainOk(threads[th].chain, th, slots[fd := accepted], ledger)
    {
      forall k | 0 <= k < |threads[th].chain|
        ensures PendingOk(slots[fd := accepted], ledger[threads[th].chain[k].id], threads[th].chain[k])
      {
        AcceptKeepsOpen(slots, accepted, fd, ledger[threads[th].chain[k].id]);
      }
    }
  }

  lemma DisconnectKeepsQueue(w: World, fd: int)
    requires forall t :: t in w.q.rec && w.q.rec[t].home == On(DIRTY) ==> w.q.rec[t].fd == FD_INVALID
    requires fd >= 0 && QueueMatches(w.q.rec, w.slots, w.ledger)
    ensures QueueMatches(Clear(w.q, fd).rec, w.slots - {fd}, w.ledger)
  {
    var rec' := Clear(w.q, fd).rec;
    forall id | id in rec' ensures rec'[id].fd == Owed(w.slots - {fd}, w.ledger[id]) {
      var e := w.ledger[id];
      assert w.q.rec[id].fd == Owed(w.slots, e);
      assert Open(w.slots - {fd}, e) <==> Open(w.slots, e) && e.fd != fd;
    }
  }

  lemma DisconnectKeepsDetached(threads: seq<Thread>, slots: map<int, nat>, ledger: seq<Entry>, fd: int)
    requires DetachedOk(threads, slots, ledger)
    ensures DetachedOk(threads, slots - {fd}, ledger)
  {
    forall th | 0 <= th < |threads| && threads[th].Replying?
      ensures ChainOk(threads[th].chain, th, slots - {fd}, ledger)
    {
      assert ChainOk(threads[th].chain, th, slots, ledger);
    }
  }

  lemma ClearKeepsHands(threads: seq<Thread>, q: State<nat>, fd: int)
    requires HandsOk(threads, q.rec)
    ensures HandsOk(threads, Clear(q, fd).rec)
  {
  }

  lemma DisconnectKeepsLedger(slots: map<int, nat>, accepted: nat, ledger: seq<Entry>, fd: int)
    requires LedgerOk(slots, accepted, ledger)
    ensures LedgerOk(slots - {fd}, accepted, ledger)
  {
    forall id | 0 <= id < |ledger| ensures EntryOk(slots - {fd}, accepted, ledger[id]) {
      assert EntryOk(slots, accepted, ledger[id]);
    }
  }

  lemma DisconnectKeeps(w: World, fd: int)
    requires Good(w) && fd in w.slots
    ensures Good(DoDisconnect(w, fd))
  {
    hide Inv, ListsOk, ChainsOk, LedgerOk, QueueMatches, HandsOk, DetachedOk, TimesBalance;
    InvHas(w.q);
    ClearKeepsInv(w.q, fd);
    DisconnectKeepsQueue(w, fd);
    DisconnectKeepsDetached(w.threads, w.slots, w.ledger, fd);
    ClearKeepsHands(w.threads, w.q, fd);
    DisconnectKeepsLedger(w.slots, w.accepted, w.ledger, fd);
  }

  // ------------------------------------------------------------ counting threads

  lemma {:induction false} CountUpdate(threads: seq<Thread>, i: nat, t: Thread)
    requires i < |threads|
    ensures CountSignalled(threads[i := t]) == CountSignalled(threads)
              - (if threads[i].Signalled? then 1 else 0) + (if t.Signalled? then 1 else 0)
  {
    var n := |threads| - 1;
    if i < n {
      CountUpdate(threads[..n], i, t);
      assert threads[i := t][..n] == threads[..n][i := t];
    } else {
      assert threads[i := t][..n] == threads[..n];
    }
  }

  /** Waking sleepers raises the count, by at least one if there was one to wake. */
  lemma {:induction false} CountWoken(threads: seq<Thread>, woken: set<nat>)
    requires forall i :: i in woken && i < |threads| ==> threads[i].Sleeping?
    ensures CountSignalled(Wake(threads, woken)) >=
              CountSignalled(threads) + if exists i :: i in woken && i < |threads| then 1 else 0
  {
    if threads != [] {
      var n := |threads| - 1;
      CountWoken(threads[..n], woken);
      assert Wake(threads, woken)[..n] == Wake(threads[..n], woken);
    }
  }

  lemma ReceiveKeepsAwake(w: World, fd: int, req: Request, woken: set<nat>)
    requires Inv(w.q) && NoLostWakeUp(w.threads, w.q) && Enabled(w, Receive(fd, req, woken))
    ensures var w' := DoReceive(w, fd, req, woken); NoLostWakeUp(w'.threads, w'.q)
  {
    hide ListsOk, ChainsOk, KeysOk, PolicyOk, Find, Place;
    CountWoken(w.threads, woken);
  }

  lemma FetchKeepsAwake(w: World, th: nat)
    requires ListsOk(w.q) && StatsOk(w.q.stats) && NoLostWakeUp(w.threads, w.q) && Enabled(w, FetchBy(th))
    ensures var w' := DoFetch(w, th); NoLostWakeUp(w'.threads, w'.q)
  {
    hide ListsOk;
    CountUpdate(w.threads, th, DoFetch(w, th).threads[th]);
  }

  lemma ThreadKeepsAwake(threads: seq<Thread>, q: State<nat>, q': State<nat>, th: nat, t: Thread)
    requires NoLostWakeUp(threads, q) && th < |threads| && !threads[th].Signalled? && !t.Sleeping?
    requires |q'.lists| == 6 && CountQueued(q') == CountQueued(q)
    ensures NoLostWakeUp(threads[th := t], q')
  {
    CountUpdate(threads, th, t);
  }

  // ------------------------------------------------------------ first come, first served

  lemma {:induction false} AdmissionsOfSame(ledger: seq<Entry>, ledger': seq<Entry>, c: int)
    requires |ledger| == |ledger'| && forall i :: 0 <= i < |ledger| ==> ledger'[i].verdict == ledger[i].verdict
    ensures Admissions(ledger', c) == Admissions(ledger, c)
  {
    if ledger != [] {
      AdmissionsOfSame(ledger[..|ledger| - 1], ledger'[..|ledger| - 1], c);
    }
  }

  lemma {:induction false} FetchedFromSame(ledger: seq<Entry>, ledger': seq<Entry>, fetches: seq<nat>, c: int)
    requires |ledger| <= |ledger'| && forall i :: 0 <= i < |ledger| ==> ledger'[i].verdict == ledger[i].verdict
    requires forall i :: 0 <= i < |fetches| ==> fetches[i] < |ledger|
    ensures FetchedFrom(ledger', fetches, c) == FetchedFrom(ledger, fetches, c)
  {
    if fetches != [] {
      FetchedFromSame(ledger, ledger', fetches[..|fetches| - 1], c);
    }
  }

  lemma {:induction false} AdmissionsAre(ledger: seq<Entry>, c: int, k: nat)
    requires k < |Admissions(ledger, c)|
    ensures Admissions(ledger, c)[k] < |ledger| && AdmittedTo(ledger[Admissions(ledger, c)[k]], c)
  {
    var n := |ledger| - 1;
    if k < |Admissions(ledger[..n], c)| {
      AdmissionsAre(ledger[..n], c, k);
    }
  }

  lemma LedgerKeepsOrder(q: State<nat>, q': State<nat>, ledger: seq<Entry>, ledger': seq<Entry>, fetches: seq<nat>)
    requires InOrder(q, ledger, fetches)
    requires |ledger| == |ledger'| && forall i :: 0 <= i < |ledger| ==> ledger'[i].verdict == ledger[i].verdict
    requires |q'.lists| == 6 && (forall c :: 0 <= c < 5 ==> q'.lists[c] == q.lists[c])
    requires q'.stats.fetched == q.stats.fetched
    ensures InOrder(q', ledger', fetches)
  {
    forall c | 0 <= c < 5
      ensures Admissions(ledger', c) == FetchedFrom(ledger', fetches, c) + q'.lists[c]
              && q'.stats.fetched[c] == |FetchedFrom(ledger', fetches, c)|
    {
      AdmissionsOfSame(ledger, ledger', c);
      FetchedFromSame(ledger, ledger', fetches, c);
    }
  }

  lemma ReceiveKeepsOrder(q: State<nat>, q': State<nat>, ledger: seq<Entry>, e: Entry, fetches: seq<nat>)
    requires InOrder(q, ledger, fetches) && |q'.lists| == 6 && q'.stats.fetched == q.stats.fetched
    requires forall c :: 0 <= c < 5 ==> q'.lists[c] == q.lists[c] + if AdmittedTo(e, c) then [|ledger|] else []
    ensures InOrder(q', ledger + [e], fetches)
  {
    var ledger' := ledger + [e];
    assert ledger'[..|ledger|] == ledger;
    forall c | 0 <= c < 5
      ensures Admissions(ledger', c) == FetchedFrom(ledger', fetches, c) + q'.lists[c]
              && q'.stats.fetched[c] == |FetchedFrom(ledger', fetches, c)|
    {
      FetchedFromSame(ledger, ledger', fetches, c);
    }
  }

  lemma FetchedOneMore(ledger: seq<Entry>, fetches: seq<nat>, t: nat, c: int)
    ensures FetchedFrom(ledger, fetches + [t], c) ==
            FetchedFrom(ledger, fetches, c) + if t < |ledger| && AdmittedTo(ledger[t], c) then [t] else []
  {
    assert (fetches + [t])[..|fetches|] == fetches;
  }

  lemma FetchKeepsOrder(q: State<nat>, ledger: seq<Entry>, fetches: seq<nat>)
    requires ListsOk(q) && StatsOk(q.stats) && InOrder(q, ledger, fetches) && !Idle(q)
    ensures var (q', t) := Fetch(q); InOrder(q', ledger, fetches + [t])
  {
    hide ListsOk, Admissions, FetchedFrom;
    var (q', t) := Fetch(q);
    var c0 := NextClass(q);
    assert Admissions(ledger, c0)[|FetchedFrom(ledger, fetches, c0)|] == t;
    AdmissionsAre(ledger, c0, |FetchedFrom(ledger, fetches, c0)|);
    forall c | 0 <= c < 5
      ensures Admissions(ledger, c) == FetchedFrom(ledger, fetches + [t], c) + q'.lists[c]
              && q'.stats.fetched[c] == |FetchedFrom(ledger, fetches + [t], c)|
    {
      FetchedOneMore(ledger, fetches, t, c);
      if c == c0 {
        assert [t] + q'.lists[c] == q.lists[c];
      }
    }
  }

  // ------------------------------------------------------------ a request comes in

  lemma UpgradeKeepsVersion(r: Request)
    ensures Upgrade(r).ver == r.ver
  {
  }

  lemma ReceiveKeepsLedger(w: World, fd: int, r: Request, v: Verdict)
    requires SlotsOk(w.slots, w.accepted) && LedgerOk(w.slots, w.accepted, w.ledger) && fd in w.slots
    requires (v.Handed? <==> Acceptable(r)) && r.ver <= 3
    ensures LedgerOk(w.slots, w.accepted, w.ledger + [NewEntry(w.slots[fd], fd, r, v)])
  {
    var e := NewEntry(w.slots[fd], fd, r, v);
    assert EntryOk(w.slots, w.accepted, e);
  }

  /** What handing a request to the queue does to the records of the others, and its own. */
  lemma AddRecords(q: State<nat>, id: nat, r: Request, fd: int)
    requires Inv(q) && id !in q.rec
    ensures var q' := Add(q, id, r, fd, DUPLICATE); var o := Decide(q, r);
            && q'.rec.Keys == q.rec.Keys + (if o.Joined? || o.Admitted? then {id} else {})
            && (forall x :: x in q.rec ==>
                  q'.rec[x].req == q.rec[x].req && q'.rec[x].fd == q.rec[x].fd && q'.rec[x].home == q.rec[x].home)
            && (id in q'.rec ==>
                  && q'.rec[id].req == r && q'.rec[id].home != On(RENDER)
                  && q'.rec[id].fd == if o.Admitted? && o.q == DIRTY then FD_INVALID else fd)
  {
    hide ListsOk, ChainsOk, KeysOk, PolicyOk, Find;
  }

  lemma NewIdIsFree(rec: map<nat, Rec<nat>>, slots: map<int, nat>, ledger: seq<Entry>)
    requires QueueMatches(rec, slots, ledger)
    ensures |ledger| !in rec
  {
  }

  lemma NewRecordMatches(rec: map<nat, Rec<nat>>, rec': map<nat, Rec<nat>>, slots: map<int, nat>, ledger: seq<Entry>,
                         e: Entry)
    requires QueueMatches(rec, slots, ledger)
    requires forall x :: x in rec ==> x in rec' && rec'[x].req == rec[x].req && rec'[x].fd == rec[x].fd
    requires forall x :: x in rec' ==> x in rec || x == |ledger|
    requires if |ledger| in rec'
             then e.stage == Queued && rec'[|ledger|].req == e.req && rec'[|ledger|].fd == Owed(slots, e)
             else e.stage != Queued
    ensures QueueMatches(rec', slots, ledger + [e])
  {
    hide Owed;
  }

  lemma ReceiveKeepsQueue(w: World, fd: int, r: Request)
    requires Inv(w.q) && QueueMatches(w.q.rec, w.slots, w.ledger) && fd in w.slots && fd >= 0 && Acceptable(r)
    ensures var v := Handed(Decide(w.q, r));
            QueueMatches(Add(w.q, |w.ledger|, r, ItemFd(r, fd), DUPLICATE).rec, w.slots,
                         w.ledger + [NewEntry(w.slots[fd], fd, r, v)])
  {
    hide Inv, ListsOk, ChainsOk, PolicyOk, StatsOk, Add, Decide, QueueMatches;
    InvHas(w.q);
    NewIdIsFree(w.q.rec, w.slots, w.ledger);
    AddRecords(w.q, |w.ledger|, r, ItemFd(r, fd));
    NewRecordMatches(w.q.rec, Add(w.q, |w.ledger|, r, ItemFd(r, fd), DUPLICATE).rec, w.slots, w.ledger,
                     NewEntry(w.slots[fd], fd, r, Handed(Decide(w.q, r))));
  }

  lemma RejectKeepsQueue(rec: map<nat, Rec<nat>>, slots: map<int, nat>, ledger: seq<Entry>, e: Entry)
    requires QueueMatches(rec, slots, ledger) && e.stage == Freed
    ensures QueueMatches(rec, slots, ledger + [e])
  {
  }

  lemma WakeKeepsHands(threads: seq<Thread>, rec: map<nat, Rec<nat>>, rec': map<nat, Rec<nat>>, woken: set<nat>)
    requires HandsOk(threads, rec) && forall i :: i in woken ==> i < |threads| && threads[i].Sleeping?
    requires forall x :: x in rec ==> x in rec' && rec'[x].home == rec[x].home
    requires forall x :: x in rec' && x !in rec ==> rec'[x].home != On(RENDER)
    ensures HandsOk(Wake(threads, woken), rec')
  {
    var threads' := Wake(threads, woken);
    forall id | id in rec' && rec'[id].home == On(RENDER)
      ensures exists i :: 0 <= i < |threads'| && threads'[i] == Rendering(id)
    {
      var i :| 0 <= i < |threads| && threads[i] == Rendering(id);
      assert threads'[i] == Rendering(id);
    }
  }

  lemma ReceiveKeepsDetached(threads: seq<Thread>, slots: map<int, nat>, ledger: seq<Entry>, e: Entry, woken: set<nat>)
    requires DetachedOk(threads, slots, ledger) && !e.stage.Detached?
    requires forall i :: i in woken ==> i < |threads| && threads[i].Sleeping?
    ensures DetachedOk(Wake(threads, woken), slots, ledger + [e])
  {
    var threads' := Wake(threads, woken);
    forall th | 0 <= th < |threads'| && threads'[th].Replying?
      ensures ChainOk(threads'[th].chain, th, slots, ledger + [e])
    {
      assert threads'[th] == threads[th] && ChainOk(threads[th].chain, th, slots, ledger);
    }
    forall id | 0 <= id < |ledger + [e]| && (ledger + [e])[id].stage.Detached?
      ensures var th := (ledger + [e])[id].stage.th;
              th < |threads'| && threads'[th].Replying?
              && exists k :: 0 <= k < |threads'[th].chain| && threads'[th].chain[k].id == id
    {
      assert ledger[id].stage.Detached?;
    }
  }

  lemma AddLists(q: State<nat>, id: nat, r: Request, fd: int)
    requires Inv(q) && id !in q.rec
    ensures var q' := Add(q, id, r, fd, DUPLICATE); var o := Decide(q, r);
            && |q'.lists| == 6 && q'.stats.fetched == q.stats.fetched && q'.stats.time == q.stats.time
            && q'.stats.timeZoom == q.stats.timeZoom
            && forall c :: 0 <= c < 5 ==>
                 q'.lists[c] == q.lists[c] + if o.Admitted? && o.q == c then [id] else []
  {
    hide ListsOk, ChainsOk, KeysOk, PolicyOk, Find;
    InvHas(q);
    assert forall c :: 0 <= c < 5 ==> q.lists[c] + [] == q.lists[c];
  }

  lemma ReceiveKeeps(w: World, fd: int, req: Request, woken: set<nat>)
    requires Good(w) && Enabled(w, Receive(fd, req, woken))
    ensures Good(DoReceive(w, fd, req, woken))
  {
    hide Inv, ListsOk, ChainsOk, KeysOk, PolicyOk, LedgerOk, QueueMatches, HandsOk, DetachedOk, NoLostWakeUp, InOrder,
         Add, Decide, Upgrade;
    var r := Upgrade(req);
    var id := |w.ledger|;
    InvHas(w.q);
    NewIdIsFree(w.q.rec, w.slots, w.ledger);
    assert r.ver <= 3 by { UpgradeKeepsVersion(req); }
    ReceiveKeepsLedger(w, fd, r, Judge(w.q, r));
    ReceiveKeepsDetached(w.threads, w.slots, w.ledger, NewEntry(w.slots[fd], fd, r, Judge(w.q, r)), woken);
    ReceiveKeepsAwake(w, fd, req, woken);
    if Acceptable(r) {
      AddKeepsInv(w.q, id, r, ItemFd(r, fd), DUPLICATE);
      ReceiveKeepsQueue(w, fd, r);
      AddRecords(w.q, id, r, ItemFd(r, fd));
      AddLists(w.q, id, r, ItemFd(r, fd));
      WakeKeepsHands(w.threads, w.q.rec, Add(w.q, id, r, ItemFd(r, fd), DUPLICATE).rec, woken);
      ReceiveKeepsOrder(w.q, Add(w.q, id, r, ItemFd(r, fd), DUPLICATE), w.ledger,
                        NewEntry(w.slots[fd], fd, r, Judge(w.q, r)), w.fetches);
    } else {
      RejectKeepsQueue(w.q.rec, w.slots, w.ledger, NewEntry(w.slots[fd], fd, r, Rejected));
      WakeKeepsHands(w.threads, w.q.rec, w.q.rec, woken);
      ReceiveKeepsOrder(w.q, w.q, w.ledger, NewEntry(w.slots[fd], fd, r, Rejected), w.fetches);
    }
  }

  // ------------------------------------------------------------ a thread fetches

  lemma FetchRecords(q: State<nat>)
    requires ListsOk(q) && StatsOk(q.stats) && !Idle(q)
    ensures var (q', t) := Fetch(q);
            && t in q.rec && q.rec[t].home == On(NextClass(q)) && q'.rec == q.rec[t := q.rec[t].(home := On(RENDER))]
  {
  }

  lemma SameDebtsMatch(rec: map<nat, Rec<nat>>, rec': map<nat, Rec<nat>>, slots: map<int, nat>, ledger: seq<Entry>)
    requires QueueMatches(rec, slots, ledger) && rec'.Keys == rec.Keys
    requires forall x :: x in rec ==> rec'[x].req == rec[x].req && rec'[x].fd == rec[x].fd
    ensures QueueMatches(rec', slots, ledger)
  {
    hide Owed;
  }

  lemma FetchKeepsHands(threads: seq<Thread>, rec: map<nat, Rec<nat>>, th: nat, t: nat)
    requires HandsOk(threads, rec) && th < |threads| && !threads[th].Rendering?
    requires t in rec && rec[t].home != On(RENDER)
    ensures HandsOk(threads[th := Rendering(t)], rec[t := rec[t].(home := On(RENDER))])
  {
    var threads', rec' := threads[th := Rendering(t)], rec[t := rec[t].(home := On(RENDER))];
    forall id | id in rec' && rec'[id].home == On(RENDER)
      ensures exists i :: 0 <= i < |threads'| && threads'[i] == Rendering(id)
    {
      if id == t {
        assert threads'[th] == Rendering(t);
      } else {
        var i :| 0 <= i < |threads| && threads[i] == Rendering(id);
        assert threads'[i] == Rendering(id);
      }
    }
  }

  lemma ThreadKeepsHands(threads: seq<Thread>, rec: map<nat, Rec<nat>>, th: nat, t: Thread)
    requires HandsOk(threads, rec) && th < |threads| && !threads[th].Rendering? && !t.Rendering?
    ensures HandsOk(threads[th := t], rec)
  {
    var threads' := threads[th := t];
    forall id | id in rec && rec[id].home == On(RENDER)
      ensures exists i :: 0 <= i < |threads'| && threads'[i] == Rendering(id)
    {
      var i :| 0 <= i < |threads| && threads[i] == Rendering(id);
      assert threads'[i] == Rendering(id);
    }
  }

  lemma ThreadKeepsDetached(threads: seq<Thread>, slots: map<int, nat>, ledger: seq<Entry>, th: nat, t: Thread)
    requires DetachedOk(threads, slots, ledger) && th < |threads| && !threads[th].Replying? && !t.Replying?
    ensures DetachedOk(threads[th := t], slots, ledger)
  {
    hide ChainOk;
    var threads' := threads[th := t];
    forall id | 0 <= id < |ledger| && ledger[id].stage.Detached?
      ensures var th := ledger[id].stage.th;
              th < |threads'| && threads'[th].Replying?
              && exists k :: 0 <= k < |threads'[th].chain| && threads'[th].chain[k].id == id
    {
      assert threads'[ledger[id].stage.th] == threads[ledger[id].stage.th];
    }
  }

  lemma FetchKeeps(w: World, th: nat)
    requires Good(w) && Enabled(w, FetchBy(th))
    ensures Good(DoFetch(w, th))
  {
    hide Inv, ListsOk, ChainsOk, PolicyOk, LedgerOk, QueueMatches, HandsOk, DetachedOk, NoLostWakeUp, InOrder,
         NextClass;
    InvHas(w.q);
    FetchKeepsAwake(w, th);
    if Idle(w.q) {
      ThreadKeepsHands(w.threads, w.q.rec, th, Sleeping);
      ThreadKeepsDetached(w.threads, w.slots, w.ledger, th, Sleeping);
    } else {
      var (q', t) := Fetch(w.q);
      FetchKeepsInv(w.q, NextClass(w.q));
      FetchRecords(w.q);
      SameDebtsMatch(w.q.rec, q'.rec, w.slots, w.ledger);
      FetchKeepsHands(w.threads, w.q.rec, th, t);
      ThreadKeepsDetached(w.threads, w.slots, w.ledger, th, Rendering(t));
      FetchKeepsOrder(w.q, w.ledger, w.fetches);
    }
  }

  lemma WakeKeeps(w: World, th: nat)
    requires Good(w) && Enabled(w, SpuriousWake(th))
    ensures Good(w.(threads := w.threads[th := Signalled]))
  {
    hide Inv, ListsOk, ChainsOk, PolicyOk, LedgerOk, QueueMatches, HandsOk, DetachedOk, NoLostWakeUp, InOrder;
    InvHas(w.q);
    ThreadKeepsHands(w.threads, w.q.rec, th, Signalled);
    ThreadKeepsDetached(w.threads, w.slots, w.ledger, th, Signalled);
    ThreadKeepsAwake(w.threads, w.q, w.q, th, Signalled);
  }

  // ------------------------------------------------------------ a thread finishes an item

  /** `rec'` is `rec` without the items of `chain`: a listed item and its duplicates. */
  ghost predicate Cut(rec: map<nat, Rec<nat>>, rec': map<nat, Rec<nat>>, chain: seq<nat>) {
    && (forall x :: x in rec' <==> x in rec && x !in chain)
    && (forall x :: x in rec' ==> rec'[x] == rec[x])
    && (forall i :: 0 <= i < |chain| ==> chain[i] in rec)
    && (forall i :: 1 <= i < |chain| ==> rec[chain[i]].home.DupOf?)
    && NoDup(chain)
  }

  lemma RemoveRecords(q: State<nat>, id: nat, time: int)
    requires ListsOk(q) && ChainsOk(q) && StatsOk(q.stats) && id in q.rec && q.rec[id].home == On(RENDER)
    requires time > 0 ==> 0 <= q.rec[id].req.z <= MAX_ZOOM
    ensures var q' := Remove(q, id, time); var chain := [id] + q.rec[id].dups;
            && Cut(q.rec, q'.rec, chain)
            && |q'.lists| == 6 && (forall c :: 0 <= c < 5 ==> q'.lists[c] == q.lists[c])
            && q'.stats.fetched == q.stats.fetched
  {
  }

  lemma FinishKeepsQueue(rec: map<nat, Rec<nat>>, rec': map<nat, Rec<nat>>, slots: map<int, nat>, ledger: seq<Entry>,
                         chain: seq<nat>, th: nat)
    requires QueueMatches(rec, slots, ledger) && Cut(rec, rec', chain)
    ensures QueueMatches(rec', slots, Detach(ledger, chain, th))
  {
  }

  lemma FinishKeepsLedger(rec: map<nat, Rec<nat>>, rec': map<nat, Rec<nat>>, slots: map<int, nat>, accepted: nat,
                          ledger: seq<Entry>, chain: seq<nat>, th: nat)
    requires LedgerOk(slots, accepted, ledger) && QueueMatches(rec, slots, ledger) && Cut(rec, rec', chain)
    ensures LedgerOk(slots, accepted, Detach(ledger, chain, th))
  {
    var ledger' := Detach(ledger, chain, th);
    forall id | 0 <= id < |ledger| ensures EntryOk(slots, accepted, ledger'[id]) {
      assert EntryOk(slots, accepted, ledger[id]);
    }
  }

  lemma FinishKeepsHands(threads: seq<Thread>, rec: map<nat, Rec<nat>>, rec': map<nat, Rec<nat>>, th: nat,
                         chain: seq<nat>, t: Thread)
    requires HandsOk(threads, rec) && th < |threads| && !t.Rendering?
    requires chain != [] && threads[th] == Rendering(chain[0]) && Cut(rec, rec', chain)
    ensures HandsOk(threads[th := t], rec')
  {
    var threads' := threads[th := t];
    forall id | id in rec' && rec'[id].home == On(RENDER)
      ensures exists i :: 0 <= i < |threads'| && threads'[i] == Rendering(id)
    {
      var i :| 0 <= i < |threads| && threads[i] == Rendering(id);
      assert threads'[i] == Rendering(id);
    }
  }

  lemma FinishedChainOk(rec: map<nat, Rec<nat>>, slots: map<int, nat>, ledger: seq<Entry>, chain: seq<nat>, th: nat)
    requires QueueMatches(rec, slots, ledger) && NoDup(chain) && forall i :: 0 <= i < |chain| ==> chain[i] in rec
    ensures ChainOk(PendingOf(rec, chain), th, slots, Detach(ledger, chain, th))
  {
    var p, ledger' := PendingOf(rec, chain), Detach(ledger, chain, th);
    forall k | 0 <= k < |p|
      ensures p[k].id < |ledger'| && ledger'[p[k].id].stage == Detached(th) && PendingOk(slots, ledger'[p[k].id], p[k])
    {
      assert p[k].id == chain[k];
    }
  }

  lemma DetachKeepsChain(chain: seq<Pending>, th: nat, slots: map<int, nat>, ledger: seq<Entry>, gone: seq<nat>,
                         th': nat)
    requires ChainOk(chain, th, slots, ledger)
    requires forall i :: 0 <= i < |gone| ==> gone[i] < |ledger| && ledger[gone[i]].stage == Queued
    ensures ChainOk(chain, th, slots, Detach(ledger, gone, th'))
  {
  }

  lemma CutWasQueued(rec: map<nat, Rec<nat>>, rec': map<nat, Rec<nat>>, slots: map<int, nat>, ledger: seq<Entry>,
                     chain: seq<nat>)
    requires QueueMatches(rec, slots, ledger) && Cut(rec, rec', chain)
    ensures NoDup(chain)
    ensures forall i :: 0 <= i < |chain| ==>
              chain[i] in rec && chain[i] < |ledger| && ledger[chain[i]].stage == Queued
  {
    hide Owed;
  }

  lemma FinishKeepsDetached(threads: seq<Thread>, rec: map<nat, Rec<nat>>, rec': map<nat, Rec<nat>>,
                            slots: map<int, nat>, ledger: seq<Entry>, chain: seq<nat>, th: nat, rsp: Cmd)
    requires DetachedOk(threads, slots, ledger) && QueueMatches(rec, slots, ledger)
    requires th < |threads| && threads[th].Rendering? && chain != [] && Cut(rec, rec', chain)
    ensures DetachedOk(threads[th := Replying(rsp, PendingOf(rec, chain))], slots, Detach(ledger, chain, th))
  {
    hide ChainOk, QueueMatches, Cut;
    CutWasQueued(rec, rec', slots, ledger, chain);
    var threads', ledger' := threads[th := Replying(rsp, PendingOf(rec, chain))], Detach(ledger, chain, th);
    FinishedChainOk(rec, slots, ledger, chain, th);
    forall i | 0 <= i < |threads'| && threads'[i].Replying? ensures ChainOk(threads'[i].chain, i, slots, ledger') {
      if i != th {
        DetachKeepsChain(threads[i].chain, i, slots, ledger, chain, th);
      }
    }
    forall id | 0 <= id < |ledger'| && ledger'[id].stage.Detached?
      ensures var h := ledger'[id].stage.th;
              h < |threads'| && threads'[h].Replying?
              && exists k :: 0 <= k < |threads'[h].chain| && threads'[h].chain[k].id == id
    {
      if id in chain {
        var k :| 0 <= k < |chain| && chain[k] == id;
        assert threads'[th].chain[k].id == id;
      } else {
        assert threads'[ledger[id].stage.th] == threads[ledger[id].stage.th];
      }
    }
  }

  lemma {:induction false} SumUpdate(s: seq<int>, i: nat, x: int)
    requires i < |s|
    ensures Sum(s[i := x]) == Sum(s) - s[i] + x
  {
    var n := |s| - 1;
    if i < n {
      SumUpdate(s[..n], i, x);
      assert s[i := x][..n] == s[..n][i := x];
    } else {
      assert s[i := x][..n] == s[..n];
    }
  }

  lemma ChargeKeepsBalance(st: Stats, origin: Queue, z: int, time: int)
    requires StatsOk(st) && TimesBalance(st) && IsClass(origin) && (time > 0 ==> 0 <= z <= MAX_ZOOM)
    ensures TimesBalance(Charge(st, origin, z, time))
  {
    if time > 0 {
      SumUpdate(st.time, origin, st.time[origin] + time);
      SumUpdate(st.timeZoom, z, st.timeZoom[z] + time);
    }
  }

  lemma InHand(w: World, th: nat)
    requires PolicyOk(w.q) && HandsOk(w.threads, w.q.rec) && th < |w.threads| && w.threads[th].Rendering?
    ensures var id := w.threads[th].id;
            id in w.q.rec && w.q.rec[id].home == On(RENDER) && IsClass(w.q.rec[id].origin)
  {
  }

  lemma FinishKeeps(maps: seq<MapConfig>, w: World, th: nat, drawn: bool, elapsed: int)
    requires ZoomsChecked(maps) && Good(w) && Enabled(w, Finish(th, drawn, elapsed))
    ensures Good(DoFinish(maps, w, th, drawn, elapsed))
  {
    hide Inv, ListsOk, ChainsOk, PolicyOk, LedgerOk, QueueMatches, HandsOk, DetachedOk, NoLostWakeUp, InOrder,
         TimesBalance, Remove, Dispatch, Charge, Cut;
    InvHas(w.q);
    InHand(w, th);
    var id := w.threads[th].id;
    var chain := [id] + w.q.rec[id].dups;
    var (rsp, time) := Dispatch(maps, w.q.rec[id].req, drawn, elapsed);
    var q' := Remove(w.q, id, time);
    RemoveKeepsInv(w.q, id, time);
    RemoveRecords(w.q, id, time);
    InHandAreQueued(w.q.rec, q'.rec, chain);
    FinishKeepsQueue(w.q.rec, q'.rec, w.slots, w.ledger, chain, th);
    FinishKeepsLedger(w.q.rec, q'.rec, w.slots, w.accepted, w.ledger, chain, th);
    FinishKeepsHands(w.threads, w.q.rec, q'.rec, th, chain, Replying(rsp, PendingOf(w.q.rec, chain)));
    FinishKeepsDetached(w.threads, w.q.rec, q'.rec, w.slots, w.ledger, chain, th, rsp);
    ThreadKeepsAwake(w.threads, w.q, q', th, Replying(rsp, PendingOf(w.q.rec, chain)));
    LedgerKeepsOrder(w.q, q', w.ledger, Detach(w.ledger, chain, th), w.fetches);
    ChargeKeepsBalance(w.q.stats, w.q.rec[id].origin, w.q.rec[id].req.z, time);
    RemoveStats(w.q, id, time);
  }

  lemma InHandAreQueued(rec: map<nat, Rec<nat>>, rec': map<nat, Rec<nat>>, chain: seq<nat>)
    requires Cut(rec, rec', chain)
    ensures forall i :: 0 <= i < |chain| ==> chain[i] in rec
  {
  }

  lemma RemoveStats(q: State<nat>, id: nat, time: int)
    requires ListsOk(q) && StatsOk(q.stats) && id in q.rec && q.rec[id].home == On(RENDER)
    requires time > 0 ==> 0 <= q.rec[id].req.z <= MAX_ZOOM
    ensures Remove(q, id, time).stats == Charge(q.stats, q.rec[id].origin, q.rec[id].req.z, time)
  {
    hide ListsOk;
  }

  // ------------------------------------------------------------ a thread sends one reply

  lemma AnsweredOk(slots: map<int, nat>, accepted: nat, e: Entry, p: Pending, rsp: Cmd)
    requires EntryOk(slots, accepted, e) && e.stage != Freed && PendingOk(slots, e, p)
    ensures EntryOk(slots, accepted, Answered(slots, e, p, rsp))
  {
  }

  /** Freeing an item outside a chain leaves the chain as it is; freeing its head, the rest. */
  lemma FreedKeepsChain(chain: seq<Pending>, th: nat, slots: map<int, nat>, ledger: seq<Entry>, id: nat, e: Entry)
    requires ChainOk(chain, th, slots, ledger) && id < |ledger|
    ensures ledger[id].stage != Detached(th) ==> ChainOk(chain, th, slots, ledger[id := e])
    ensures chain != [] && chain[0].id == id ==> ChainOk(chain[1..], th, slots, ledger[id := e])
  {
    hide PendingOk;
  }

  lemma SendKeepsDetached(threads: seq<Thread>, slots: map<int, nat>, ledger: seq<Entry>, th: nat, t: Thread, e: Entry)
    requires DetachedOk(threads, slots, ledger) && th < |threads| && threads[th].Replying?
    requires threads[th].chain[0].id < |ledger| && e.stage == Freed
    requires t == if |threads[th].chain| == 1 then Running else Replying(threads[th].rsp, threads[th].chain[1..])
    ensures DetachedOk(threads[th := t], slots, ledger[threads[th].chain[0].id := e])
  {
    hide ChainOk, PendingOk;
    var chain := threads[th].chain;
    var id0 := chain[0].id;
    var threads', ledger' := threads[th := t], ledger[id0 := e];
    ChainHead(threads, slots, ledger, th);
    forall i | 0 <= i < |threads'| && threads'[i].Replying? ensures ChainOk(threads'[i].chain, i, slots, ledger') {
      FreedKeepsChain(threads[i].chain, i, slots, ledger, id0, e);
    }
    forall id | 0 <= id < |ledger'| && ledger'[id].stage.Detached?
      ensures var h := ledger'[id].stage.th;
              h < |threads'| && threads'[h].Replying?
              && exists k :: 0 <= k < |threads'[h].chain| && threads'[h].chain[k].id == id
    {
      var h := ledger[id].stage.th;
      var k :| 0 <= k < |threads[h].chain| && threads[h].chain[k].id == id;
      assert h == th ==> chain[1..][k - 1].id == id;
    }
  }

  lemma SendKeepsQueue(rec: map<nat, Rec<nat>>, slots: map<int, nat>, ledger: seq<Entry>, id: nat, e: Entry)
    requires QueueMatches(rec, slots, ledger) && id < |ledger| && ledger[id].stage != Queued && e.stage == Freed
    ensures QueueMatches(rec, slots, ledger[id := e])
  {
    hide Owed;
  }

  lemma ChainHead(threads: seq<Thread>, slots: map<int, nat>, ledger: seq<Entry>, th: nat)
    requires DetachedOk(threads, slots, ledger) && th < |threads| && threads[th].Replying?
    ensures var c := threads[th].chain;
            && c != [] && c[0].id < |ledger| && ledger[c[0].id].stage == Detached(th)
            && PendingOk(slots, ledger[c[0].id], c[0])
  {
    assert ChainOk(threads[th].chain, th, slots, ledger);
  }

  lemma SendKeeps(w: World, th: nat)
    requires Good(w) && Enabled(w, SendNext(th))
    ensures w.threads[th].chain != [] && w.threads[th].chain[0].id < |w.ledger|
    ensures Good(DoSend(w, th))
  {
    hide Inv, ListsOk, ChainsOk, PolicyOk, QueueMatches, HandsOk, DetachedOk, NoLostWakeUp, InOrder, EntryOk, PendingOk;
    InvHas(w.q);
    ChainHead(w.threads, w.slots, w.ledger, th);
    var w' := DoSend(w, th);
    var c := w.threads[th].chain[0];
    AnsweredOk(w.slots, w.accepted, w.ledger[c.id], c, w.threads[th].rsp);
    SendKeepsQueue(w.q.rec, w.slots, w.ledger, c.id, w'.ledger[c.id]);
    ThreadKeepsHands(w.threads, w.q.rec, th, w'.threads[th]);
    SendKeepsDetached(w.threads, w.slots, w.ledger, th, w'.threads[th], w'.ledger[c.id]);
    ThreadKeepsAwake(w.threads, w.q, w.q, th, w'.threads[th]);
    LedgerKeepsOrder(w.q, w.q, w.ledger, w'.ledger, w.fetches);
  }
}
