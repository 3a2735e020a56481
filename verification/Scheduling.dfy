/** What the order of the five classes guarantees a queued request, over any run of queue
    operations. */
module Scheduling {
  import opened Protocol
  import opened QueueSpec
  import opened Seqs

  datatype Op<T> =
    | OpAdd(t: T, req: Request, fd: int, origin: Queue)
    | OpFetch
    | OpRemove(t: T, time: int)
    | OpClear(fd: int)

  ghost predicate Enabled<T>(s: State<T>, op: Op<T>)
    requires Inv(s)
  {
    match op
    case OpAdd(t, _, _, _) => t !in s.rec
    case OpFetch => !Idle(s)
    case OpRemove(t, time) =>
      t in s.rec && s.rec[t].home == On(RENDER) && (time > 0 ==> 0 <= s.rec[t].req.z <= MAX_ZOOM)
    case OpClear(_) => true
  }

  ghost function Do<T>(s: State<T>, op: Op<T>): (r: State<T>)
    requires Inv(s) && Enabled(s, op)
    ensures Inv(r)
  {
    match op
    case OpAdd(t, req, fd, origin) => AddKeepsInv(s, t, req, fd, origin); Add(s, t, req, fd, origin)
    case OpFetch => FetchKeepsInv(s, NextClass(s)); Fetch(s).0
    case OpRemove(t, time) => RemoveKeepsInv(s, t, time); Remove(s, t, time)
    case OpClear(fd) => ClearKeepsInv(s, fd); Clear(s, fd)
  }

  /** How many items wait in the classes before `q`. */
  function Before<T>(s: State<T>, q: nat): nat
    requires |s.lists| == 6 && q <= 5
  {
    if q == 0 then 0 else Before(s, q - 1) + |s.lists[q - 1]|
  }

  /** `t` waits at place `k` of class `q`, with `n` items in front of it over all classes. */
  ghost predicate Waits<T>(s: State<T>, t: T, q: nat, n: int)
    requires |s.lists| == 6
  {
    IsClass(q) && Before(s, q) <= n < Before(s, q) + |s.lists[q]| && s.lists[q][n - Before(s, q)] == t
  }

  /** No operation of the run lists a request in a class more urgent than `q`. */
  ghost predicate NoneOvertakes<T>(s: State<T>, ops: seq<Op<T>>, q: nat)
    requires Inv(s)
    decreases |ops|
  {
    ops == [] ||
    (&& Enabled(s, ops[0])
     && (ops[0].OpAdd? ==> var o := Decide(s, ops[0].req); o.Admitted? ==> o.q >= q)
     && NoneOvertakes(Do(s, ops[0]), ops[1..], q))
  }

  ghost function After<T>(s: State<T>, ops: seq<Op<T>>, q: nat): (r: State<T>)
    requires Inv(s) && NoneOvertakes(s, ops, q)
    ensures Inv(r)
    decreases |ops|
  {
    if ops == [] then s else After(Do(s, ops[0]), ops[1..], q)
  }

  function Fetches<T>(ops: seq<Op<T>>): nat {
    if ops == [] then 0 else (if ops[0].OpFetch? then 1 else 0) + Fetches(ops[1..])
  }

  lemma BeforeSame<T>(s: State<T>, s': State<T>, q: nat)
    requires |s.lists| == |s'.lists| == 6 && q <= 5
    requires forall q' :: 0 <= q' < q ==> |s'.lists[q']| == |s.lists[q']|
    ensures Before(s', q) == Before(s, q)
  {
  }

  lemma {:induction false} BeforeShrinks<T>(s: State<T>, s': State<T>, q: nat, c: nat)
    requires |s.lists| == |s'.lists| == 6 && c < q <= 5
    requires |s'.lists[c]| == |s.lists[c]| - 1
    requires forall q' :: 0 <= q' < 5 && q' != c ==> |s'.lists[q']| == |s.lists[q']|
    ensures Before(s', q) == Before(s, q) - 1
  {
    if c == q - 1 {
      BeforeSame(s, s', c);
    } else {
      BeforeShrinks(s, s', q - 1, c);
    }
  }

  lemma NothingBefore<T>(s: State<T>, q: nat)
    requires |s.lists| == 6 && q <= 5 && forall q' :: 0 <= q' < q ==> |s.lists[q']| == 0
    ensures Before(s, q) == 0
  {
  }

  lemma ClassesDiffer<T>(s: State<T>, q: nat, i: nat, q': nat, i': nat)
    requires ListsOk(s) && q < q' < 6 && i < |s.lists[q]| && i' < |s.lists[q']|
    ensures s.lists[q][i] != s.lists[q'][i']
  {
  }

  /** A fetch serves the first in line, or moves everybody up by one. */
  lemma FetchMovesUp<T>(s: State<T>, t: T, q: nat, n: int)
    requires ListsOk(s) && StatsOk(s.stats) && Waits(s, t, q, n)
    ensures !Idle(s)
    ensures n == 0 <==> Fetch(s).1 == t
    ensures n > 0 ==> Waits(Fetch(s).0, t, q, n - 1)
  {
    assert |s.lists[q]| > 0 && NoDup(s.lists[q]);
    hide ListsOk;
    var c := NextClass(s);
    var s' := Fetch(s).0;
    if c < q {
      BeforeShrinks(s, s', q, c);
      ClassesDiffer(s, c, 0, q, n - Before(s, q));
    } else {
      NothingBefore(s, q);
      BeforeSame(s, s', q);
    }
  }

  /** Only a fetch takes anything off the five classes, and only listing adds, at the tail. */
  lemma StepGrows<T>(s: State<T>, op: Op<T>)
    requires Inv(s) && Enabled(s, op) && !op.OpFetch?
    ensures var s' := Do(s, op); |s.lists| == |s'.lists| == 6
    ensures forall c :: 0 <= c < 5 ==>
              var s' := Do(s, op);
              if op.OpAdd? && Decide(s, op.req) == Admitted(c) then s'.lists[c] == s.lists[c] + [op.t]
              else s'.lists[c] == s.lists[c]
  {
    hide ChainsOk, KeysOk, PolicyOk, Find;
  }

  lemma StepKeepsWaiting<T>(s: State<T>, op: Op<T>, t: T, q: nat, n: int)
    requires Inv(s) && Waits(s, t, q, n) && Enabled(s, op) && !op.OpFetch?
    requires op.OpAdd? ==> var o := Decide(s, op.req); o.Admitted? ==> o.q >= q
    ensures Waits(Do(s, op), t, q, n)
  {
    hide Inv, Do, Enabled, Decide;
    StepGrows(s, op);
    BeforeSame(s, Do(s, op), q);
  }

  /** Whatever else happens, as long as no request enters a more urgent class, a request with
      `n` others in front of it is still waiting after `n` fetches, and the next one serves
      it. */
  lemma {:induction false} ServedExactlyInTurn<T>(s: State<T>, ops: seq<Op<T>>, t: T, q: nat, n: int)
    requires Inv(s) && Waits(s, t, q, n) && NoneOvertakes(s, ops, q) && Fetches(ops) <= n
    ensures var s' := After(s, ops, q);
            && Waits(s', t, q, n - Fetches(ops))
            && !Idle(s') && (Fetch(s').1 == t <==> Fetches(ops) == n)
    decreases |ops|
  {
    hide Inv, ListsOk, StatsOk, Waits, Idle, Fetch, Decide;
    InvHas(s);
    FetchMovesUp(s, t, q, n);
    if ops != [] {
      if ops[0].OpFetch? {
        ServedExactlyInTurn(Do(s, ops[0]), ops[1..], t, q, n - 1);
      } else {
        StepKeepsWaiting(s, ops[0], t, q, n);
        ServedExactlyInTurn(Do(s, ops[0]), ops[1..], t, q, n);
      }
    }
  }
}
