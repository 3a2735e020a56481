/** What becomes of a request handed to the queue, and of the time and the messages when its item
    leaves it, said of the lists, records and counters themselves. */
module Admission {
  import opened Protocol
  import opened QueueSpec
  import opened Seqs

  // ------------------------------------------------------------ a request comes in

  /** Nobody on any list asks for this metatile yet. */
  ghost predicate Unwanted<T>(s: State<T>, req: Request) {
    forall p :: p in s.rec && s.rec[p].home.On? ==> !AskForTheSame(s.rec[p].req, req)
  }

  /** From `s` to `s'`, `t` was put at the tail of list `q`, and nothing else changed. */
  ghost predicate ListedIn<T>(s: State<T>, s': State<T>, t: T, req: Request, fd: int, q: Queue)
    requires |s.lists| == 6 && q < 6
  {
    && s'.lists == s.lists[q := s.lists[q] + [t]]
    && s'.rec == s.rec[t := Rec(req, fd, q, On(q), [])]
    && s'.stats == s.stats
  }

  /** The four classes that a command can ask for have no room for it. */
  predicate NoRoom<T>(s: State<T>, cmd: Cmd)
    requires |s.lists| == 6
  {
    && (cmd == CmdRenderPrio ==> |s.lists[PRIO]| >= 256)
    && (cmd == CmdRender ==> |s.lists[REQUEST]| >= 256)
    && (cmd == CmdRenderLow ==> |s.lists[LOW]| >= 256)
    && (cmd == CmdRenderBulk ==> |s.lists[BULK]| >= 256)
  }

  /** A request for a metatile that nobody wants yet is listed under the urgency its command
      names, below 256 there; else it goes to the dirty list, below 8000, without its descriptor
      and with NotDone; and only if that is full too it is dropped, and counted. */
  lemma ListedByCommand<T>(s: State<T>, t: T, req: Request, fd: int, origin: Queue)
    requires Inv(s) && t !in s.rec && Unwanted(s, req)
    ensures |s.lists| == 6 && ListsOk(s)
    ensures var s', a := Add(s, t, req, fd, origin), Answer(Decide(s, req));
            && (req.cmd == CmdRenderPrio && |s.lists[PRIO]| < 256 ==> ListedIn(s, s', t, req, fd, PRIO))
            && (req.cmd == CmdRender && |s.lists[REQUEST]| < 256 ==> ListedIn(s, s', t, req, fd, REQUEST))
            && (req.cmd == CmdRenderLow && |s.lists[LOW]| < 256 ==> ListedIn(s, s', t, req, fd, LOW))
            && (req.cmd == CmdRenderBulk && |s.lists[BULK]| < 256 ==> ListedIn(s, s', t, req, fd, BULK))
            && (a == CmdNotDone <==> NoRoom(s, req.cmd) || !IsRenderCmd(req.cmd))
    ensures NoRoom(s, req.cmd) || !IsRenderCmd(req.cmd) ==>
              var s' := Add(s, t, req, fd, origin);
              if |s.lists[DIRTY]| < 8000 then ListedIn(s, s', t, req, FD_INVALID, DIRTY)
              else s'.lists == s.lists && s'.rec == s.rec
                   && s'.stats == s.stats.(dropped := s.stats.dropped + 1)
  {
    hide ChainsOk, PolicyOk, Find, ListsOk;
    InvHas(s);
    FindsNone(s, req);
  }

  lemma FindsNone<T>(s: State<T>, req: Request)
    requires ListsOk(s) && KeysOk(s) && Unwanted(s, req)
    ensures Find(s, KeyOf(req)) == None
  {
    hide KeyOf, ListsOk, Find;
    FindIsExact(s, KeyOf(req));
    if Find(s, KeyOf(req)).Some? {
      var p := Find(s, KeyOf(req)).value;
      KeyTellsMetatile(s.rec[p].req, req);
    }
  }

  /** A request for a metatile that some listed item asks for already: the item on the dirty or
      bulk list turns it away, any other takes it as its first duplicate. */
  lemma JoinsOrIsRefused<T>(s: State<T>, t: T, req: Request, fd: int, origin: Queue, p: T)
    requires Inv(s) && t !in s.rec && p in s.rec && s.rec[p].home.On? && AskForTheSame(s.rec[p].req, req)
    ensures ListsOk(s)
    ensures var s', a := Add(s, t, req, fd, origin), Answer(Decide(s, req));
            if s.rec[p].home.q == DIRTY || s.rec[p].home.q == BULK then s' == s && a == CmdNotDone
            else
              && a == CmdIgnore && s'.lists == s.lists && s'.stats == s.stats
              && s'.rec == s.rec[p := s.rec[p].(dups := [t] + s.rec[p].dups)][t := Rec(req, fd, origin, DupOf(p), [])]
  {
    hide ChainsOk, PolicyOk, Find, ListsOk, KeyOf;
    InvHas(s);
    FindIsExact(s, KeyOf(req));
    KeyTellsMetatile(s.rec[p].req, req);
  }

  /** A duplicate hangs on an item for the same square of the same map, and of two listed items no
      two are for the same. */
  lemma MetatilesAgree<T>(s: State<T>, d: T, p: T)
    requires Inv(s) && d in s.rec && p in s.rec
    ensures s.rec[d].home == DupOf(p) ==> AskForTheSame(s.rec[d].req, s.rec[p].req)
    ensures s.rec[d].home.On? && s.rec[p].home.On? && AskForTheSame(s.rec[d].req, s.rec[p].req) ==> d == p
  {
    hide ListsOk, PolicyOk, KeyOf;
    KeyTellsMetatile(s.rec[d].req, s.rec[p].req);
  }

  // ------------------------------------------------------------ an item is done

  /** Removing an item books its time, if positive, once to the class it was listed in and once to
      its zoom level, and to no other. */
  lemma TimeIsBooked<T>(s: State<T>, t: T, time: int, c: nat, z: nat)
    requires Inv(s) && t in s.rec && s.rec[t].home == On(RENDER) && c < 5 && z <= MAX_ZOOM
    requires time > 0 ==> 0 <= s.rec[t].req.z <= MAX_ZOOM
    ensures ListsOk(s) && StatsOk(s.stats) && StatsOk(Remove(s, t, time).stats) && IsClass(s.rec[t].origin)
    ensures var st, st' := s.stats, Remove(s, t, time).stats;
            && st'.time[c] == st.time[c] + (if time > 0 && s.rec[t].origin == c then time else 0)
            && st'.timeZoom[z] == st.timeZoom[z] + (if time > 0 && s.rec[t].req.z == z then time else 0)
            && st'.noZoom[z] == st.noZoom[z] + (if time > 0 && s.rec[t].req.z == z then 1 else 0)
            && st'.fetched == st.fetched && st'.dropped == st.dropped
  {
    hide ListsOk, ChainsOk, KeysOk;
  }

  /** Somebody waits for an answer to this item. */
  predicate Expects<T>(r: Rec<T>) {
    && r.fd != FD_INVALID
    && (r.req.cmd == CmdRender || r.req.cmd == CmdRenderPrio || r.req.cmd == CmdRenderLow || r.req.cmd == CmdRenderBulk)
  }

  function Expecting<T(==)>(rec: map<T, Rec<T>>, chain: seq<T>): nat
    requires forall i :: 0 <= i < |chain| ==> chain[i] in rec
  {
    if chain == [] then 0
    else
      var n := |chain| - 1;
      Expecting(rec, chain[..n]) + if Expects(rec[chain[n]]) then 1 else 0
  }

  /** One message for each item of the chain that somebody waits for, in the order of the chain, to
      its own descriptor, with its own request but for the response `rsp`. */
  ghost predicate AnswersAll<T>(sent: seq<Message>, rec: map<T, Rec<T>>, chain: seq<T>, rsp: Cmd)
    requires forall i :: 0 <= i < |chain| ==> chain[i] in rec
  {
    && |sent| == Expecting(rec, chain)
    && forall k {:trigger chain[k]} :: 0 <= k < |chain| && Expects(rec[chain[k]]) ==>
         var at, r := Expecting(rec, chain[..k]), rec[chain[k]];
         && at < |sent| && sent[at].fd == r.fd && sent[at].body.cmd == rsp
         && sent[at].body == r.req.(cmd := sent[at].body.cmd)
  }

  lemma {:induction false} RepliesAnswerAll<T>(rec: map<T, Rec<T>>, chain: seq<T>, rsp: Cmd)
    requires forall i :: 0 <= i < |chain| ==> chain[i] in rec
    ensures AnswersAll(Replies(rec, chain, rsp), rec, chain, rsp)
  {
    if chain != [] {
      var n := |chain| - 1;
      var c := chain[..n];
      RepliesAnswerAll(rec, c, rsp);
      forall k {:trigger chain[k]} | 0 <= k < n && Expects(rec[chain[k]])
        ensures var at, r, sent := Expecting(rec, chain[..k]), rec[chain[k]], Replies(rec, chain, rsp);
                && at < |sent| && sent[at].fd == r.fd && sent[at].body.cmd == rsp
                && sent[at].body == r.req.(cmd := sent[at].body.cmd)
      {
        assert c[k] == chain[k] && c[..k] == chain[..k];
      }
    }
  }
}
