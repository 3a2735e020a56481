/** The bounded queue between a rendering client and its worker threads: one producer, any
    number of workers, two condition variables, and a flag that ends the work.  Every
    critical section is one step; a wait gives up the lock between two steps. */
module SubmitQueue {
  import opened Protocol

  datatype Job = Job(mapname: string, x: int, y: int, z: int)

  // ------------------------------------------------------------ the linked list

  class QItem {
    const job: Job
    var next: QItem?

    constructor (job: Job)
      ensures this.job == job && next == null
    {
      this.job := job;
      this.next := null;
    }
  }

  class JobList {
    var qHead: QItem?
    var qTail: QItem?
    var qLen: nat
    ghost var items: seq<QItem>

    ghost predicate Valid()
      reads this, items
    {
      && qLen == |items|
      && (qLen == 0 ==> qHead == null && qTail == null)
      && (qLen > 0 ==> qHead == items[0] && qTail == items[qLen - 1])
      && (forall i, j :: 0 <= i < j < |items| ==> items[i] != items[j])
      && (forall i {:trigger items[i].next} :: 0 <= i < |items| ==>
            items[i].next == if i + 1 < |items| then items[i + 1] else null)
    }

    ghost function Jobs(): (js: seq<Job>)
      reads this
      ensures |js| == |items| && forall i :: 0 <= i < |js| ==> js[i] == items[i].job
    {
      var s := items;
      seq(|s|, i requires 0 <= i < |s| => s[i].job)
    }

    constructor ()
      ensures Valid() && Jobs() == []
    {
      qHead, qTail, qLen, items := null, null, 0, [];
    }

    /** The tail end of enqueue. */
    method Append(job: Job)
      requires Valid()
      modifies this, items
      ensures Valid() && Jobs() == old(Jobs()) + [job]
      ensures fresh(set x | x in items && x !in old(items))
    {
      var e := new QItem(job);
      if qTail != null {
        qTail.next := e;
      } else {
        qHead := e;
      }
      qTail := e;
      qLen := qLen + 1;
      items := items + [e];
    }

    /** What fetch does once the queue is not empty. */
    method TakeHead() returns (job: Job)
      requires Valid() && qLen > 0
      modifies this
      ensures Valid() && old(Jobs()) == [job] + Jobs()
    {
      var e := qHead;
      qLen := qLen - 1;
      if qLen == 0 {
        qHead := null;
        qTail := null;
      } else {
        qHead := qHead.next;
      }
      items := items[1..];
      job := e.job;
    }
  }

  // ------------------------------------------------------------ the threads

  datatype Worker =
    | Starting      // not yet connected to renderd
    | Outside       // at work on a job, or on its way to fetch one
    | Asleep        // waiting for qCondNotEmpty
    | Woken         // signalled, not yet back in the lock
    | Failed        // could not connect
    | Done          // got no job from fetch

  datatype Producer =
    | Free
    | Enqueueing(job: Job)
    | WaitingFull(job: Job)   // waiting for qCondNotFull in enqueue
    | Draining
    | WaitingEmpty            // waiting for qCondNotFull in wait_for_empty_queue
    | Finishing               // work_complete is set, the broadcast is still to come
    | Joining

  datatype World = World(max: nat, queue: seq<Job>, complete: bool, producer: Producer, workers: seq<Worker>,
                         enqueued: seq<Job>, fetched: seq<Job>)

  datatype Step =
    | CallEnqueue(job: Job) | TryEnqueue(woken: set<nat>)
    | CallDrain | TryDrain
    | CallFinish | Broadcast
    | ProducerWakes
    | Connect(w: nat) | ConnectFails(w: nat)
    | Fetch(w: nat)
    | WorkerWakes(w: nat)

  predicate CanFetch(wk: Worker) {
    wk == Outside || wk == Woken
  }

  predicate Enabled(s: World, step: Step) {
    match step
    case CallEnqueue(_) => s.producer == Free
    case TryEnqueue(woken) =>
      && s.producer.Enqueueing?
      && (forall i :: i in woken ==> i < |s.workers| && s.workers[i] == Asleep)
      && (if |s.queue| == s.max then woken == {}
          else woken != {} || forall i :: 0 <= i < |s.workers| ==> s.workers[i] != Asleep)
    case CallDrain => s.producer == Free
    case TryDrain => s.producer == Draining
    case CallFinish => s.producer == Free
    case Broadcast => s.producer == Finishing
    case ProducerWakes => s.producer.WaitingFull? || s.producer.WaitingEmpty?
    case Connect(w) => w < |s.workers| && s.workers[w] == Starting
    case ConnectFails(w) => w < |s.workers| && s.workers[w] == Starting
    case Fetch(w) => w < |s.workers| && CanFetch(s.workers[w])
    case WorkerWakes(w) => w < |s.workers| && s.workers[w] == Asleep
  }

  function Wake(workers: seq<Worker>, woken: set<nat>): (r: seq<Worker>)
    ensures |r| == |workers| && forall i :: 0 <= i < |r| ==> r[i] == if i in woken then Woken else workers[i]
  {
    seq(|workers|, i requires 0 <= i < |workers| => if i in woken then Woken else workers[i])
  }

  function WakeAll(workers: seq<Worker>): (r: seq<Worker>)
    ensures |r| == |workers| && forall i :: 0 <= i < |r| ==> r[i] == if workers[i] == Asleep then Woken else workers[i]
  {
    seq(|workers|, i requires 0 <= i < |workers| => if workers[i] == Asleep then Woken else workers[i])
  }

  function Roused(p: Producer): Producer {
    match p
    case WaitingFull(job) => Enqueueing(job)
    case WaitingEmpty => Draining
    case _ => p
  }

  function Apply(s: World, step: Step): World
    requires Enabled(s, step)
  {
    match step
    case CallEnqueue(job) => s.(producer := Enqueueing(job))
    case TryEnqueue(woken) =>
      var job := s.producer.job;
      if |s.queue| == s.max then s.(producer := WaitingFull(job))
      else s.(producer := Free, queue := s.queue + [job], enqueued := s.enqueued + [job],
              workers := Wake(s.workers, woken))
    case CallDrain => s.(producer := Draining)
    case TryDrain => s.(producer := if |s.queue| > 0 then WaitingEmpty else Free)
    case CallFinish => s.(producer := Finishing, complete := true)
    case Broadcast => s.(producer := Joining, workers := WakeAll(s.workers))
    case ProducerWakes => s.(producer := Roused(s.producer))
    case Connect(w) => s.(workers := s.workers[w := Outside])
    case ConnectFails(w) => s.(workers := s.workers[w := Failed])
    case Fetch(w) =>
      if |s.queue| == 0 then s.(workers := s.workers[w := if s.complete then Done else Asleep])
      else s.(queue := s.queue[1..], fetched := s.fetched + [s.queue[0]],
              workers := s.workers[w := Outside], producer := Roused(s.producer))
    case WorkerWakes(w) => s.(workers := s.workers[w := Woken])
  }

  // ------------------------------------------------------------ what every run keeps

  function CountWoken(workers: seq<Worker>): nat {
    if workers == [] then 0
    else CountWoken(workers[..|workers| - 1]) + if workers[|workers| - 1] == Woken then 1 else 0
  }

  ghost predicate Good(s: World) {
    && 0 < s.max && |s.queue| <= s.max
    // nothing is lost, invented or reordered
    && s.enqueued == s.fetched + s.queue
    && (s.complete <==> s.producer == Finishing || s.producer == Joining)
    // no lost wake-up: a worker sleeps on only if enough others are on their way
    && (forall i :: 0 <= i < |s.workers| && s.workers[i] == Asleep ==> |s.queue| <= CountWoken(s.workers))
    // the producer sleeps on only while what it waits for is not there
    && (s.producer.WaitingFull? ==> |s.queue| == s.max)
    && (s.producer.WaitingEmpty? ==> |s.queue| > 0)
    // nobody sleeps after the broadcast, and nobody leaves with work left
    && (s.producer == Joining ==> forall i :: 0 <= i < |s.workers| ==> s.workers[i] != Asleep)
    && (forall i :: 0 <= i < |s.workers| && s.workers[i] == Done ==> s.complete && s.queue == [])
  }

  lemma {:induction false} CountUpdate(workers: seq<Worker>, i: nat, wk: Worker)
    requires i < |workers|
    ensures CountWoken(workers[i := wk]) ==
            CountWoken(workers) - (if workers[i] == Woken then 1 else 0) + (if wk == Woken then 1 else 0)
  {
    var n := |workers| - 1;
    if i < n {
      CountUpdate(workers[..n], i, wk);
      assert workers[i := wk][..n] == workers[..n][i := wk];
    } else {
      assert workers[i := wk][..n] == workers[..n];
    }
  }

  lemma {:induction false} CountAfterWake(workers: seq<Worker>, woken: set<nat>)
    requires forall i :: i in woken && i < |workers| ==> workers[i] == Asleep
    ensures CountWoken(Wake(workers, woken)) >=
              CountWoken(workers) + if exists i :: i in woken && i < |workers| then 1 else 0
  {
    if workers != [] {
      var n := |workers| - 1;
      CountAfterWake(workers[..n], woken);
      assert Wake(workers, woken)[..n] == Wake(workers[..n], woken);
    }
  }

  lemma EnqueueKeepsGood(s: World, woken: set<nat>)
    requires Good(s) && Enabled(s, TryEnqueue(woken))
    ensures Good(Apply(s, TryEnqueue(woken)))
  {
    CountAfterWake(s.workers, woken);
    var s' := Apply(s, TryEnqueue(woken));
    assert s'.enqueued == s'.fetched + s'.queue;
  }

  lemma FetchKeepsGood(s: World, w: nat)
    requires Good(s) && Enabled(s, Fetch(w))
    ensures Good(Apply(s, Fetch(w)))
  {
    var s' := Apply(s, Fetch(w));
    CountUpdate(s.workers, w, s'.workers[w]);
    if |s.queue| > 0 {
      assert s'.fetched + s'.queue == s.fetched + ([s.queue[0]] + s.queue[1..]);
    }
  }

  lemma WorkerKeepsGood(s: World, w: nat, wk: Worker)
    requires Good(s) && w < |s.workers| && wk != Asleep && wk != Done && s.workers[w] != Woken
    ensures Good(s.(workers := s.workers[w := wk]))
  {
    CountUpdate(s.workers, w, wk);
  }

  lemma ProducerKeepsGood(s: World, step: Step)
    requires Good(s) && Enabled(s, step)
    requires || step.CallEnqueue? || step.CallDrain? || step.TryDrain?
             || step.CallFinish? || step.Broadcast? || step.ProducerWakes?
    ensures Good(Apply(s, step))
  {
  }

  lemma StepKeepsGood(s: World, step: Step)
    requires Good(s) && Enabled(s, step)
    ensures Good(Apply(s, step))
  {
    hide Good;
    match step
    case TryEnqueue(woken) => EnqueueKeepsGood(s, woken);
    case Connect(w) => WorkerKeepsGood(s, w, Outside);
    case ConnectFails(w) => WorkerKeepsGood(s, w, Failed);
    case Fetch(w) => FetchKeepsGood(s, w);
    case WorkerWakes(w) => WorkerKeepsGood(s, w, Woken);
    case _ => ProducerKeepsGood(s, step);
  }

  // ------------------------------------------------------------ whole runs

  /** spawn_workers: as many places in the queue as workers. */
  function Init(n: nat): World {
    World(n, [], false, Free, seq(n, _ => Starting), [], [])
  }

  ghost function Run(n: nat, steps: seq<Step>): (r: Option<World>)
    requires n > 0
    ensures r.Some? ==> Good(r.value) && r.value.max == n
  {
    if steps == [] then Some(Init(n))
    else
      var before := Run(n, steps[..|steps| - 1]);
      var step := steps[|steps| - 1];
      if before.Some? && Enabled(before.value, step)
      then StepKeepsGood(before.value, step); Some(Apply(before.value, step))
      else None
  }

  /** Jobs are fetched in the order they were enqueued; a worker gets no job only after the
      producer has finished and every job was fetched. */
  lemma FetchedInOrder(n: nat, steps: seq<Step>)
    requires n > 0 && Run(n, steps).Some?
    ensures var s := Run(n, steps).value;
            && s.fetched <= s.enqueued
            && forall i :: 0 <= i < |s.workers| && s.workers[i] == Done ==> s.complete && s.fetched == s.enqueued
  {
  }

  /** The jobs that enqueue was called with, in order. */
  function AskedFor(steps: seq<Step>): seq<Job> {
    if steps == [] then []
    else
      var n := |steps| - 1;
      AskedFor(steps[..n]) + if steps[n].CallEnqueue? then [steps[n].job] else []
  }

  /** The job of a call of enqueue that has not returned yet. */
  function InHand(p: Producer): seq<Job> {
    if p.Enqueueing? || p.WaitingFull? then [p.job] else []
  }

  /** No job is lost on the way: what enqueue was called with is what was fetched, followed by what
      is queued, followed by what the producer still waits to put there. */
  lemma {:induction false} NoJobIsLost(n: nat, steps: seq<Step>)
    requires n > 0 && Run(n, steps).Some?
    ensures var s := Run(n, steps).value; AskedFor(steps) == s.fetched + s.queue + InHand(s.producer)
  {
    hide Good;
    if steps == [] {
    } else {
      var before, step := steps[..|steps| - 1], steps[|steps| - 1];
      NoJobIsLost(n, before);
      StepKeepsJobs(Run(n, before).value, step);
    }
  }

  lemma StepKeepsJobs(s: World, step: Step)
    requires Enabled(s, step)
    ensures var s' := Apply(s, step);
            s'.fetched + s'.queue + InHand(s'.producer) ==
            s.fetched + s.queue + InHand(s.producer) + if step.CallEnqueue? then [step.job] else []
  {
    var s' := Apply(s, step);
    if step.Fetch? && |s.queue| > 0 {
      assert s'.fetched + s'.queue == s.fetched + ([s.queue[0]] + s.queue[1..]) == s.fetched + s.queue;
      assert InHand(s'.producer) == InHand(s.producer);
    } else if step.TryEnqueue? && |s.queue| != s.max {
      assert s'.fetched + s'.queue + [] == s.fetched + s.queue + [s.producer.job];
    }
  }

  /** enqueue returns exactly when there is room, wait_for_empty_queue exactly when the queue is empty;
      fetch gives up exactly when it is empty and the end was announced, and sleeps exactly when it
      is empty before. */
  lemma ReturnsExactly(s: World, step: Step)
    requires Good(s) && Enabled(s, step)
    ensures step.TryEnqueue? ==> (Apply(s, step).producer == Free <==> |s.queue| < s.max)
    ensures step.TryDrain? ==> (Apply(s, step).producer == Free <==> s.queue == [])
    ensures step.Fetch? ==>
              var wk := Apply(s, step).workers[step.w];
              && (wk == Done <==> s.queue == [] && s.complete)
              && (wk == Asleep <==> s.queue == [] && !s.complete)
              && (wk == Outside <==> s.queue != [])
  {
  }

  lemma {:induction false} SomeWoken(workers: seq<Worker>)
    requires CountWoken(workers) > 0
    ensures exists i :: 0 <= i < |workers| && workers[i] == Woken
  {
    var n := |workers| - 1;
    if workers[n] != Woken {
      SomeWoken(workers[..n]);
    }
  }

  /** Anything but a wake-up out of the blue. */
  predicate Progress(step: Step) {
    !step.ProducerWakes? && !step.WorkerWakes?
  }

  ghost predicate Stuck(s: World) {
    forall step :: Progress(step) ==> !Enabled(s, step)
  }

  predicate AllGone(s: World) {
    forall i :: 0 <= i < |s.workers| ==> s.workers[i] == Failed || s.workers[i] == Done
  }

  /** The threads can only ever come to a halt together when every worker has left: after
      the broadcast that is the end of the work; before it, it means that not one worker
      managed to connect while the producer waits for room or for the queue to run empty. */
  lemma HaltsExactlyWhenAllGone(n: nat, steps: seq<Step>)
    requires n > 0 && Run(n, steps).Some?
    ensures var s := Run(n, steps).value;
            Stuck(s) <==> AllGone(s) && (s.producer == Joining || s.producer.WaitingFull? || s.producer.WaitingEmpty?)
    ensures var s := Run(n, steps).value;
            Stuck(s) && s.producer != Joining ==> forall i :: 0 <= i < |s.workers| ==> s.workers[i] == Failed
    ensures var s := Run(n, steps).value;
            Stuck(s) && s.producer == Joining && (exists i :: 0 <= i < |s.workers| && s.workers[i] != Failed) ==>
              s.fetched == s.enqueued
  {
    var s := Run(n, steps).value;
    if AllGone(s) && (s.producer == Joining || s.producer.WaitingFull? || s.producer.WaitingEmpty?) {
      assert Stuck(s);
    } else {
      var step := NextStep(s);
      assert Enabled(s, step) && Progress(step);
    }
  }

  lemma NextStep(s: World) returns (step: Step)
    requires Good(s)
    requires !(AllGone(s) && (s.producer == Joining || s.producer.WaitingFull? || s.producer.WaitingEmpty?))
    ensures Enabled(s, step) && Progress(step)
  {
    match s.producer
    case Free => return CallDrain;
    case Enqueueing(_) =>
      var asleep: set<nat> := set i | 0 <= i < |s.workers| && s.workers[i] == Asleep;
      assert forall i :: 0 <= i < |s.workers| && s.workers[i] == Asleep ==> i in asleep;
      return TryEnqueue(if |s.queue| == s.max then {} else asleep);
    case Draining => return TryDrain;
    case Finishing => return Broadcast;
    case _ =>
      if i :| 0 <= i < |s.workers| && CanFetch(s.workers[i]) {
        return Fetch(i);
      } else if i :| 0 <= i < |s.workers| && s.workers[i] == Starting {
        return Connect(i);
      }
      // somebody sleeps, so there is work and somebody on its way
      SomeWoken(s.workers);
      assert false;
  }
}
