/** What the ledger of a run has to do with its steps: every request received is in it as it came
    in, and every answer says what came of the rendering that one of the steps finished. */
module DaemonAnswers {
  import opened Protocol
  import opened QueueSpec
  import opened Daemon
  import opened DaemonSteps
  import opened DaemonRuns
  import opened Admission

  lemma LastStep(maps: seq<MapConfig>, n: nat, steps: seq<Step>)
    requires ZoomsChecked(maps) && steps != [] && Run(maps, n, steps).Some?
    ensures var before, step := steps[..|steps| - 1], steps[|steps| - 1];
            && Run(maps, n, before).Some? && Good(Run(maps, n, before).value) && ListsOk(Run(maps, n, before).value.q)
            && Enabled(Run(maps, n, before).value, step)
            && Run(maps, n, steps).value == Apply(maps, Run(maps, n, before).value, step)
  {
    hide Good, Enabled, Apply;
    var w := Run(maps, n, steps[..|steps| - 1]).value;
    assert ListsOk(w.q) by { GoodHas(w); }
  }

  lemma GoodHas(w: World)
    requires Good(w)
    ensures Inv(w.q) && ListsOk(w.q) && ChainsOk(w.q) && StatsOk(w.q.stats)
  {
    hide LedgerOk, QueueMatches, HandsOk, DetachedOk, NoLostWakeUp, InOrder, TimesBalance, KeysOk, PolicyOk;
  }

  // ------------------------------------------------------------ every request is on the books

  /** The numbers of the steps that received a request. */
  function Receipts(steps: seq<Step>): (r: seq<nat>)
    ensures forall k :: 0 <= k < |r| ==> r[k] < |steps| && steps[r[k]].Receive?
  {
    if steps == [] then []
    else
      var n := |steps| - 1;
      Receipts(steps[..n]) + if steps[n].Receive? then [n] else []
  }

  /** A request as it is after the upgrade to version 3. */
  predicate AsReceived(e: Request, r: Request) {
    && (e.ver, e.cmd, e.x, e.y, e.z) == (r.ver, r.cmd, r.x, r.y, r.z)
    && e.xmlname == (if r.ver == 1 then "default" else r.xmlname)
    && (e.mimetype, e.options) == if r.ver < 3 then ("image/png", "") else (r.mimetype, r.options)
  }

  ghost predicate ClosedSince(steps: seq<Step>, i: nat, fd: int) {
    exists j :: i < j < |steps| && steps[j] == Disconnect(fd)
  }

  /** The entry is that of the request received in step `i`, and its connection counts as open
      exactly as long as its descriptor was not disconnected. */
  ghost predicate Recorded(steps: seq<Step>, slots: map<int, nat>, e: Entry, i: nat)
    requires i < |steps| && steps[i].Receive?
  {
    && e.fd == steps[i].fd && AsReceived(e.req, steps[i].req)
    && (Open(slots, e) <==> !ClosedSince(steps, i, e.fd))
  }

  ghost predicate AllRecorded(steps: seq<Step>, slots: map<int, nat>, ledger: seq<Entry>) {
    && |ledger| == |Receipts(steps)|
    && forall k :: 0 <= k < |ledger| ==> Recorded(steps, slots, ledger[k], Receipts(steps)[k])
  }

  /** Nothing but a disconnect of its descriptor closes a connection. */
  lemma StepKeepsRecord(steps: seq<Step>, step: Step, slots: map<int, nat>, slots': map<int, nat>, accepted: nat,
                        e: Entry, e': Entry, i: nat)
    requires i < |steps| && steps[i].Receive? && Recorded(steps, slots, e, i) && e.conn < accepted
    requires e'.fd == e.fd && e'.req == e.req && e'.conn == e.conn
    requires if step.Disconnect? then slots' == slots - {step.fd}
             else if step.Accept? then step.fd !in slots && (slots' == slots || slots' == slots[step.fd := accepted])
             else slots' == slots
    ensures Recorded(steps + [step], slots', e', i)
  {
    var steps' := steps + [step];
    assert steps'[i] == steps[i];
    if ClosedSince(steps, i, e.fd) {
      var j :| i < j < |steps| && steps[j] == Disconnect(e.fd);
      assert steps'[j] == steps[j];
    }
    if step == Disconnect(e.fd) {
      assert steps'[|steps|] == step;
    } else if ClosedSince(steps', i, e.fd) {
      var j :| i < j < |steps'| && steps'[j] == Disconnect(e.fd);
      assert steps[j] == Disconnect(e.fd);
    }
  }

  lemma {:induction false} LedgerIsWhatWasReceived(maps: seq<MapConfig>, n: nat, steps: seq<Step>)
    requires ZoomsChecked(maps) && Run(maps, n, steps).Some?
    ensures var w := Run(maps, n, steps).value; AllRecorded(steps, w.slots, w.ledger)
  {
    hide Good, Enabled, Apply, Recorded, Run;
    if steps == [] {
      assert Run(maps, n, []) == Some(Init(n)) by { RunStarts(maps, n); }
    } else {
      var before, step := steps[..|steps| - 1], steps[|steps| - 1];
      LastStep(maps, n, steps);
      LedgerIsWhatWasReceived(maps, n, before);
      assert before + [step] == steps;
      OneMoreRecorded(maps, before, Run(maps, n, before).value, step);
    }
  }

  lemma RunStarts(maps: seq<MapConfig>, n: nat)
    requires ZoomsChecked(maps)
    ensures Run(maps, n, []) == Some(Init(n))
  {
    hide Good, Enabled, Apply;
  }

  /** What a step does to slots and entries. */
  lemma StepOnBooks(maps: seq<MapConfig>, w: World, step: Step)
    requires ZoomsChecked(maps) && Good(w) && ListsOk(w.q) && Enabled(w, step)
    ensures var w' := Apply(maps, w, step);
            && |w'.ledger| == |w.ledger| + (if step.Receive? then 1 else 0)
            && (forall k :: 0 <= k < |w.ledger| ==>
                  && w'.ledger[k].fd == w.ledger[k].fd && w'.ledger[k].req == w.ledger[k].req
                  && w'.ledger[k].conn == w.ledger[k].conn)
            && (if step.Disconnect? then w'.slots == w.slots - {step.fd}
                else if step.Accept?
                then step.fd !in w.slots && (w'.slots == w.slots || w'.slots == w.slots[step.fd := w.accepted])
                else w'.slots == w.slots)
            && (step.Receive? ==>
                  var e := w'.ledger[|w.ledger|];
                  e.fd == step.fd && AsReceived(e.req, step.req) && Open(w'.slots, e))
    ensures forall k :: 0 <= k < |w.ledger| ==> w.ledger[k].conn < w.accepted
  {
    hide Inv, ListsOk, QueueMatches, HandsOk, NoLostWakeUp, InOrder, TimesBalance, Judge, Dispatch, Add, Clear, Remove,
         Fetch, Idle, DetachedOk;
    if step.SendNext? {
      ChainHead(w.threads, w.slots, w.ledger, step.th);
    }
    forall k | 0 <= k < |w.ledger| ensures w.ledger[k].conn < w.accepted {
      assert EntryOk(w.slots, w.accepted, w.ledger[k]);
    }
  }

  lemma OneMoreRecorded(maps: seq<MapConfig>, steps: seq<Step>, w: World, step: Step)
    requires ZoomsChecked(maps) && Good(w) && ListsOk(w.q) && Enabled(w, step) && AllRecorded(steps, w.slots, w.ledger)
    ensures var w' := Apply(maps, w, step); AllRecorded(steps + [step], w'.slots, w'.ledger)
  {
    hide Good, Enabled, Apply, AsReceived, Recorded, ListsOk;
    var w' := Apply(maps, w, step);
    var steps' := steps + [step];
    StepOnBooks(maps, w, step);
    assert steps'[..|steps|] == steps;
    assert Receipts(steps') == Receipts(steps) + if step.Receive? then [|steps|] else [];
    forall k | 0 <= k < |w.ledger| ensures Recorded(steps', w'.slots, w'.ledger[k], Receipts(steps')[k]) {
      StepKeepsRecord(steps, step, w.slots, w'.slots, w.accepted, w.ledger[k], w'.ledger[k], Receipts(steps)[k]);
    }
    if step.Receive? {
      NewIsRecorded(steps', w'.slots, w'.ledger[|w.ledger|]);
    }
  }

  lemma NewIsRecorded(steps: seq<Step>, slots: map<int, nat>, e: Entry)
    requires steps != [] && steps[|steps| - 1].Receive?
    requires var step := steps[|steps| - 1]; e.fd == step.fd && AsReceived(e.req, step.req) && Open(slots, e)
    ensures Recorded(steps, slots, e, |steps| - 1)
  {
  }

  /** A request is rejected out of hand exactly if its command is none of the five that the daemon
      knows. */
  lemma RejectedExactly(maps: seq<MapConfig>, n: nat, steps: seq<Step>, id: nat)
    requires ZoomsChecked(maps) && Run(maps, n, steps).Some? && id < |Run(maps, n, steps).value.ledger|
    ensures var e := Run(maps, n, steps).value.ledger[id];
            e.verdict == Rejected <==>
            e.req.cmd !in [CmdRender, CmdRenderPrio, CmdRenderLow, CmdRenderBulk, CmdDirty]
  {
    hide Inv, QueueMatches, HandsOk, DetachedOk, NoLostWakeUp, InOrder, TimesBalance, Apply, Enabled;
    var w := Run(maps, n, steps).value;
    assert EntryOk(w.slots, w.accepted, w.ledger[id]);
  }

  // ------------------------------------------------------------ every answer is that of a rendering

  /** In step `j` of the run a thread finished the item that request `id` is, or hangs on, and came
      to the response `rsp`. */
  ghost predicate FinishedIn(maps: seq<MapConfig>, n: nat, steps: seq<Step>, j: nat, id: nat, rsp: Cmd)
    requires ZoomsChecked(maps)
  {
    && j < |steps| && steps[j].Finish? && Run(maps, n, steps[..j]).Some?
    && FinishedBy(maps, Run(maps, n, steps[..j]).value, steps[j], id, rsp)
  }

  ghost predicate FinishedBy(maps: seq<MapConfig>, w: World, step: Step, id: nat, rsp: Cmd)
    requires ZoomsChecked(maps) && step.Finish?
  {
    && step.th < |w.threads| && w.threads[step.th].Rendering?
    && var p := w.threads[step.th].id;
    && p in w.q.rec && id in w.q.rec && (id == p || w.q.rec[id].home == DupOf(p))
    && rsp == Dispatch(maps, w.q.rec[p].req, step.drawn, step.elapsed).0
  }

  ghost predicate Finished(maps: seq<MapConfig>, n: nat, steps: seq<Step>, id: nat, rsp: Cmd)
    requires ZoomsChecked(maps)
  {
    exists j :: 0 <= j < |steps| && FinishedIn(maps, n, steps, j, id, rsp)
  }

  lemma StaysFinished(maps: seq<MapConfig>, n: nat, steps: seq<Step>, step: Step, id: nat, rsp: Cmd)
    requires ZoomsChecked(maps) && Finished(maps, n, steps, id, rsp)
    ensures Finished(maps, n, steps + [step], id, rsp)
  {
    hide Run, FinishedBy;
    var j :| 0 <= j < |steps| && FinishedIn(maps, n, steps, j, id, rsp);
    assert (steps + [step])[..j] == steps[..j] && (steps + [step])[j] == steps[j];
    assert FinishedIn(maps, n, steps + [step], j, id, rsp);
  }

  /** What a thread is about to answer, and what was answered other than at once, is the response
      of a rendering that was finished. */
  ghost predicate Told(maps: seq<MapConfig>, n: nat, steps: seq<Step>, w: World)
    requires ZoomsChecked(maps)
  {
    && (forall th, k :: 0 <= th < |w.threads| && w.threads[th].Replying? && 0 <= k < |w.threads[th].chain| ==>
          Finished(maps, n, steps, w.threads[th].chain[k].id, w.threads[th].rsp))
    && (forall id :: 0 <= id < |w.ledger| && |w.ledger[id].replies| > 0 && !w.ledger[id].replies[0].immediate ==>
          Finished(maps, n, steps, id, w.ledger[id].replies[0].msg.cmd))
  }

  /** What a step can add to what is to be told. */
  ghost predicate Tells(maps: seq<MapConfig>, w: World, w': World, step: Step)
    requires ZoomsChecked(maps)
  {
    && (forall th, k :: 0 <= th < |w'.threads| && w'.threads[th].Replying? && 0 <= k < |w'.threads[th].chain| ==>
          || (step.Finish? && FinishedBy(maps, w, step, w'.threads[th].chain[k].id, w'.threads[th].rsp))
          || Replies(w, th, w'.threads[th].chain[k].id, w'.threads[th].rsp))
    && (forall id :: 0 <= id < |w'.ledger| && |w'.ledger[id].replies| > 0 && !w'.ledger[id].replies[0].immediate ==>
          || (id < |w.ledger| && w.ledger[id].replies != [] && w.ledger[id].replies[0] == w'.ledger[id].replies[0])
          || exists th :: 0 <= th < |w.threads| && Replies(w, th, id, w'.ledger[id].replies[0].msg.cmd))
  }

  /** Thread `th` is about to answer `rsp` to request `id`. */
  ghost predicate Replies(w: World, th: nat, id: nat, rsp: Cmd) {
    && th < |w.threads| && w.threads[th].Replying? && w.threads[th].rsp == rsp
    && exists k :: 0 <= k < |w.threads[th].chain| && w.threads[th].chain[k].id == id
  }

  /** What a finishing thread is going to answer, and to whom. */
  lemma FinishedChain(maps: seq<MapConfig>, w: World, step: Step, k: nat)
    requires ZoomsChecked(maps) && step.Finish? && step.th < |w.threads| && w.threads[step.th].Rendering?
    requires ListsOk(w.q) && ChainsOk(w.q) && StatsOk(w.q.stats)
    requires w.threads[step.th].id in w.q.rec && w.q.rec[w.threads[step.th].id].home == On(RENDER)
    ensures var t := DoFinish(maps, w, step.th, step.drawn, step.elapsed).threads[step.th];
            t.Replying? && (k < |t.chain| ==> FinishedBy(maps, w, step, t.chain[k].id, t.rsp))
  {
    hide ListsOk, Dispatch, Remove;
    var p := w.threads[step.th].id;
    var chain := [p] + w.q.rec[p].dups;
    assert 0 < k < |chain| ==> chain[k] == w.q.rec[p].dups[k - 1];
  }

  lemma FinishTells(maps: seq<MapConfig>, w: World, th: nat, drawn: bool, elapsed: int)
    requires ZoomsChecked(maps) && Good(w) && ListsOk(w.q) && Enabled(w, Finish(th, drawn, elapsed))
    ensures Tells(maps, w, Apply(maps, w, Finish(th, drawn, elapsed)), Finish(th, drawn, elapsed))
  {
    hide Inv, ListsOk, ChainsOk, QueueMatches, LedgerOk, DetachedOk, NoLostWakeUp, InOrder, TimesBalance, Dispatch,
         Remove, FinishedBy;
    GoodHas(w);
    var step := Finish(th, drawn, elapsed);
    var w' := Apply(maps, w, step);
    forall i, k | 0 <= i < |w'.threads| && w'.threads[i].Replying? && 0 <= k < |w'.threads[i].chain|
      ensures FinishedBy(maps, w, step, w'.threads[i].chain[k].id, w'.threads[i].rsp)
              || Replies(w, i, w'.threads[i].chain[k].id, w'.threads[i].rsp)
    {
      if i == th {
        FinishedChain(maps, w, step, k);
      }
    }
  }

  lemma SendTells(maps: seq<MapConfig>, w: World, th: nat)
    requires ZoomsChecked(maps) && Good(w) && ListsOk(w.q) && Enabled(w, SendNext(th))
    ensures Tells(maps, w, Apply(maps, w, SendNext(th)), SendNext(th))
  {
    hide Inv, ListsOk, QueueMatches, LedgerOk, HandsOk, NoLostWakeUp, InOrder, TimesBalance;
    ChainHead(w.threads, w.slots, w.ledger, th);
    var w' := Apply(maps, w, SendNext(th));
    var chain := w.threads[th].chain;
    assert Replies(w, th, chain[0].id, w.threads[th].rsp);
    forall i, k | 0 <= i < |w'.threads| && w'.threads[i].Replying? && 0 <= k < |w'.threads[i].chain|
      ensures Replies(w, i, w'.threads[i].chain[k].id, w'.threads[i].rsp)
    {
      if i == th {
        assert w'.threads[i].chain[k] == chain[k + 1];
      }
    }
  }

  lemma OtherStepsTell(maps: seq<MapConfig>, w: World, step: Step)
    requires ZoomsChecked(maps) && Good(w) && ListsOk(w.q) && Enabled(w, step) && !step.Finish? && !step.SendNext?
    ensures Tells(maps, w, Apply(maps, w, step), step)
  {
    hide Inv, ListsOk, QueueMatches, LedgerOk, HandsOk, DetachedOk, NoLostWakeUp, InOrder, TimesBalance, Judge, Add,
         Clear, Fetch, Idle, Upgrade;
    var w' := Apply(maps, w, step);
    forall i, k | 0 <= i < |w'.threads| && w'.threads[i].Replying? && 0 <= k < |w'.threads[i].chain|
      ensures Replies(w, i, w'.threads[i].chain[k].id, w'.threads[i].rsp)
    {
      assert w'.threads[i] == w.threads[i];
    }
  }

  lemma OneMoreTold(maps: seq<MapConfig>, n: nat, steps: seq<Step>, w: World, w': World, step: Step)
    requires ZoomsChecked(maps) && Run(maps, n, steps) == Some(w) && Told(maps, n, steps, w) && Tells(maps, w, w', step)
    ensures Told(maps, n, steps + [step], w')
  {
    hide Run, Good, FinishedBy, FinishedIn, Finished;
    forall th, id, rsp | 0 <= th && Replies(w, th, id, rsp) ensures Finished(maps, n, steps + [step], id, rsp) {
      StaysFinished(maps, n, steps, step, id, rsp);
    }
    forall id, rsp | step.Finish? && FinishedBy(maps, w, step, id, rsp)
      ensures Finished(maps, n, steps + [step], id, rsp)
    {
      FinishedNow(maps, n, steps, w, step, id, rsp);
    }
    forall id | 0 <= id < |w.ledger| && |w.ledger[id].replies| > 0 && !w.ledger[id].replies[0].immediate
      ensures Finished(maps, n, steps + [step], id, w.ledger[id].replies[0].msg.cmd)
    {
      StaysFinished(maps, n, steps, step, id, w.ledger[id].replies[0].msg.cmd);
    }
  }

  lemma FinishedNow(maps: seq<MapConfig>, n: nat, steps: seq<Step>, w: World, step: Step, id: nat, rsp: Cmd)
    requires ZoomsChecked(maps) && Run(maps, n, steps) == Some(w) && step.Finish? && FinishedBy(maps, w, step, id, rsp)
    ensures Finished(maps, n, steps + [step], id, rsp)
  {
    hide Run, FinishedBy;
    assert (steps + [step])[..|steps|] == steps;
    assert FinishedIn(maps, n, steps + [step], |steps|, id, rsp);
  }

  lemma {:induction false} AllIsTold(maps: seq<MapConfig>, n: nat, steps: seq<Step>)
    requires ZoomsChecked(maps) && Run(maps, n, steps).Some?
    ensures Told(maps, n, steps, Run(maps, n, steps).value)
  {
    hide Run, Good, Enabled, Apply, Tells, Finished, ListsOk;
    if steps == [] {
      RunStarts(maps, n);
    } else {
      var before, step := steps[..|steps| - 1], steps[|steps| - 1];
      LastStep(maps, n, steps);
      AllIsTold(maps, n, before);
      var w := Run(maps, n, before).value;
      if step.Finish? {
        FinishTells(maps, w, step.th, step.drawn, step.elapsed);
      } else if step.SendNext? {
        SendTells(maps, w, step.th);
      } else {
        OtherStepsTell(maps, w, step);
      }
      OneMoreTold(maps, n, before, w, Apply(maps, w, step), step);
      assert before + [step] == steps;
    }
  }

  /** In every run, an answer that did not go out at once tells what came of a rendering in that
      run, the one of step `j`, of the request's own metatile: Done exactly if there was something
      to draw and it was drawn and saved, Ignore exactly if the square is off its map, NotDone
      otherwise. */
  lemma AnswerTellsTheRendering(maps: seq<MapConfig>, n: nat, steps: seq<Step>, id: nat) returns (j: nat)
    requires ZoomsChecked(maps) && Run(maps, n, steps).Some? && id < |Run(maps, n, steps).value.ledger|
    requires var a := Run(maps, n, steps).value.ledger[id].replies; a != [] && !a[0].immediate
    ensures j < |steps| && steps[j].Finish? && Run(maps, n, steps[..j]).Some?
    ensures var w, th := Run(maps, n, steps[..j]).value, steps[j].th;
            && th < |w.threads| && w.threads[th].Rendering? && w.threads[th].id in w.q.rec && id in w.q.rec
            && AskForTheSame(w.q.rec[w.threads[th].id].req, w.q.rec[id].req)
            && var e, drawn := Run(maps, n, steps).value.ledger[id], steps[j].drawn;
            && w.q.rec[id].req == e.req
            && (e.replies[0].msg.cmd == CmdDone <==> drawn && Drawable(maps, e.req))
            && (e.replies[0].msg.cmd == CmdIgnore <==> OffTheMap(maps, e.req))
            && (e.replies[0].msg.cmd == CmdNotDone <==> !OffTheMap(maps, e.req) && !(drawn && Drawable(maps, e.req)))
  {
    hide Run, Good, Dispatch, Drawable, OffTheMap, AskForTheSame;
    AllIsTold(maps, n, steps);
    var e := Run(maps, n, steps).value.ledger[id];
    var rsp := e.replies[0].msg.cmd;
    j :| 0 <= j < |steps| && FinishedIn(maps, n, steps, j, id, rsp);
    var w := Run(maps, n, steps[..j]).value;
    var p := w.threads[steps[j].th].id;
    GoodHas(w);
    SameAsked(w, id, p);
    RequestsStay(maps, n, steps, j, id);
    DispatchExactly(maps, w.q.rec[p].req, steps[j].drawn, steps[j].elapsed);
    SameForTheSame(maps, w.q.rec[p].req, w.q.rec[id].req);
  }

  lemma SameAsked(w: World, id: nat, p: nat)
    requires Good(w) && p in w.q.rec && id in w.q.rec && (id == p || w.q.rec[id].home == DupOf(p))
    ensures AskForTheSame(w.q.rec[p].req, w.q.rec[id].req) && id < |w.ledger| && w.q.rec[id].req == w.ledger[id].req
  {
    hide Inv, LedgerOk, HandsOk, DetachedOk, NoLostWakeUp, InOrder, TimesBalance, Owed;
    MetatilesAgree(w.q, id, p);
  }

  /** Entries keep their requests. */
  lemma {:induction false} RequestsStay(maps: seq<MapConfig>, n: nat, steps: seq<Step>, j: nat, id: nat)
    requires ZoomsChecked(maps) && Run(maps, n, steps).Some? && j <= |steps|
    requires Run(maps, n, steps[..j]).Some? && id < |Run(maps, n, steps[..j]).value.ledger|
    ensures id < |Run(maps, n, steps).value.ledger|
    ensures Run(maps, n, steps).value.ledger[id].req == Run(maps, n, steps[..j]).value.ledger[id].req
    decreases |steps|
  {
    hide Run, Good, Enabled, Apply, ListsOk;
    if j == |steps| {
      assert steps[..j] == steps;
    } else {
      var before := steps[..|steps| - 1];
      LastStep(maps, n, steps);
      assert before[..j] == steps[..j];
      RequestsStay(maps, n, before, j, id);
      StepOnBooks(maps, Run(maps, n, before).value, steps[|steps| - 1]);
    }
  }

  /** Put together: a render request that ran its course with its connection open was answered
      once, there, either NotDone at once or with what came of its rendering. */
  lemma AnsweredAsItWas(maps: seq<MapConfig>, n: nat, steps: seq<Step>, id: nat)
    requires ZoomsChecked(maps) && Run(maps, n, steps).Some? && id < |Run(maps, n, steps).value.ledger|
    requires var w := Run(maps, n, steps).value; var e := w.ledger[id];
             e.stage == Freed && Open(w.slots, e) && IsRenderCmd(e.req.cmd)
    ensures var e := Run(maps, n, steps).value.ledger[id];
            && |e.replies| == 1 && e.replies[0].to == Some(e.conn)
            && (if AtOnce(e.verdict) then e.replies[0].msg.cmd == CmdNotDone
                else
                  exists j :: 0 <= j < |steps| && steps[j].Finish?
                    && (e.replies[0].msg.cmd == CmdDone <==> steps[j].drawn && Drawable(maps, e.req))
                    && (e.replies[0].msg.cmd == CmdIgnore <==> OffTheMap(maps, e.req)))
  {
    hide Run, Inv, QueueMatches, HandsOk, DetachedOk, NoLostWakeUp, InOrder, TimesBalance, Apply, Enabled, Drawable,
         OffTheMap;
    var w := Run(maps, n, steps).value;
    AnsweredExactlyOnce(maps, n, steps, id);
    assert EntryOk(w.slots, w.accepted, w.ledger[id]);
    if !AtOnce(w.ledger[id].verdict) {
      var j := AnswerTellsTheRendering(maps, n, steps, id);
    }
  }
}
