/** The Apache module's throttling: a table of token buckets, one per client address and slot,
    topped up lazily for all slots at once when some client finds its bucket empty.  A client
    that stays empty sleeps with the lock released, so other requests come in between. */
module DelayPool {
  import opened Arith
  import opened Bytes
  import opened Protocol

  type Address = int

  datatype Bucket = Bucket(ip: Address, tiles: int, renders: int)

  /** Sizes in tokens, rates in microseconds per token. */
  datatype Config = Config(tileSize: int, renderSize: int, tileRate: int, renderRate: int)

  predicate ConfigOk(c: Config) {
    0 <= c.tileSize && 0 <= c.renderSize && 0 < c.tileRate && 0 < c.renderRate
  }

  datatype Pool = Pool(users: seq<Bucket>, lastTile: int, lastRender: int)

  // ------------------------------------------------------------ the pieces of delay_allowed

  /** One round at a bucket: what is left, and 0 if the request may pass. */
  datatype Round = Round(bucket: Bucket, delay: int)

  function TakeRound(b: Bucket, missing: bool): Round {
    var b1 := if b.tiles > 0 then b.(tiles := b.tiles - 1) else b;
    var d1 := if b.tiles > 0 then 0 else 1;
    if !missing then Round(b1, d1)
    else if b1.renders > 0 then Round(b1.(renders := b1.renders - 1), d1)
    else Round(b1, 2)
  }

  /** A round passes exactly if every token it needs is there, and then takes exactly those.
      A round that fails may still take one: a tile token when only the render token is
      missing, or a render token when only the tile token is. */
  lemma RoundCharges(b: Bucket, missing: bool)
    requires 0 <= b.tiles && 0 <= b.renders
    ensures var r := TakeRound(b, missing);
            && (r.delay == 0 <==> b.tiles > 0 && (missing ==> b.renders > 0))
            && r.bucket.tiles == b.tiles - (if b.tiles > 0 then 1 else 0)
            && r.bucket.renders == b.renders - (if missing && b.renders > 0 then 1 else 0)
            && (r.delay > 0 && r.bucket != b <==> missing && (b.tiles > 0) != (b.renders > 0))
  {
  }

  function TopUps(now: int, last: int, rate: int): int
    requires 0 < rate && last <= now
  {
    (now - last) / rate
  }

  function Topped(b: Bucket, tt: int, rt: int, c: Config): Bucket {
    Bucket(b.ip, Min(b.tiles + tt, c.tileSize), Min(b.renders + rt, c.renderSize))
  }

  function ToppedAll(users: seq<Bucket>, tt: int, rt: int, c: Config): (r: seq<Bucket>)
    ensures |r| == |users| && forall i :: 0 <= i < |r| ==> r[i] == Topped(users[i], tt, rt, c)
  {
    seq(|users|, i requires 0 <= i < |users| => Topped(users[i], tt, rt, c))
  }

  predicate ClockOk(p: Pool, now: int) {
    p.lastTile <= now && p.lastRender <= now
  }

  function FillUp(p: Pool, c: Config, now: int): Pool
    requires ConfigOk(c) && ClockOk(p, now)
  {
    var tt, rt := TopUps(now, p.lastTile, c.tileRate), TopUps(now, p.lastRender, c.renderRate);
    Pool(if tt > 0 || rt > 0 then ToppedAll(p.users, tt, rt, c) else p.users,
         p.lastTile + c.tileRate * tt, p.lastRender + c.renderRate * rt)
  }

  predicate WithinBounds(users: seq<Bucket>, c: Config) {
    forall k :: 0 <= k < |users| ==> 0 <= users[k].tiles <= c.tileSize && 0 <= users[k].renders <= c.renderSize
  }

  /** A level after `due` tokens came due: all of them are there, unless that is more than fits. */
  function Raised(level: int, due: int, size: int): int {
    if level + due <= size then level + due else size
  }

  /** Filling up gives every bucket all the tokens that came due since the last time, as far as they
      fit, and puts the clocks forward to within one token of now. */
  ghost predicate FilledUp(p: Pool, p': Pool, c: Config, now: int)
    requires ConfigOk(c)
  {
    && |p'.users| == |p.users|
    && (forall k :: 0 <= k < |p.users| ==>
          && p'.users[k].ip == p.users[k].ip
          && p'.users[k].tiles == Raised(p.users[k].tiles, (now - p.lastTile) / c.tileRate, c.tileSize)
          && p'.users[k].renders == Raised(p.users[k].renders, (now - p.lastRender) / c.renderRate, c.renderSize))
    && p'.lastTile <= now < p'.lastTile + c.tileRate && (p'.lastTile - p.lastTile) % c.tileRate == 0
    && p'.lastRender <= now < p'.lastRender + c.renderRate && (p'.lastRender - p.lastRender) % c.renderRate == 0
  }

  lemma ClockAdvances(last: int, rate: int, now: int)
    requires 0 < rate && last <= now
    ensures var last' := last + rate * ((now - last) / rate); last' <= now < last' + rate && (last' - last) % rate == 0
  {
    var q := (now - last) / rate;
    assert now - last == rate * q + (now - last) % rate;
    MultipleHasNoRest(rate, q);
  }

  lemma FillsUp(p: Pool, c: Config, now: int)
    requires ConfigOk(c) && ClockOk(p, now) && WithinBounds(p.users, c)
    ensures FilledUp(p, FillUp(p, c, now), c, now)
  {
    DivNonNegative(now - p.lastTile, c.tileRate);
    DivNonNegative(now - p.lastRender, c.renderRate);
    ClockAdvances(p.lastTile, c.tileRate, now);
    ClockAdvances(p.lastRender, c.renderRate, now);
  }

  /** When a request passes before it has to let go of the lock: at a bucket of somebody else, which
      it takes over full; with all it needs in its own; or if filling that up, after what the
      first round took, brings it. */
  lemma PassesExactly(p: Pool, c: Config, k: nat, ip: Address, missing: bool, now: int)
    requires ConfigOk(c) && k < |p.users| && ClockOk(p, now) && WithinBounds(p.users, c)
    ensures var b, r := p.users[k], FirstRounds(p, c, k, ip, missing, now);
            var tiles := if b.tiles > 0 then b.tiles - 1 else 0;
            var renders := if missing && b.renders > 0 then b.renders - 1 else b.renders;
            && (r.delay == 0 <==>
                  || b.ip != ip
                  || (b.tiles > 0 && (missing ==> b.renders > 0))
                  || (&& Raised(tiles, (now - p.lastTile) / c.tileRate, c.tileSize) > 0
                      && (missing ==> Raised(renders, (now - p.lastRender) / c.renderRate, c.renderSize) > 0)))
            && |r.pool.users| == |p.users| && r.pool.users[k].ip == ip
            && (b.ip != ip ==> r.pool == p.(users := p.users[k := Bucket(ip, c.tileSize, c.renderSize)]))
  {
    hide FillUp;
    var r := RoundAt(p, k, missing);
    RoundCharges(p.users[k], missing);
    if p.users[k].ip == ip && r.delay != 0 {
      FillsUp(r.pool, c, now);
      RoundCharges(FillUp(r.pool, c, now).users[k], missing);
    }
  }

  /** And after the first sleep: it passes exactly if filling up brings what it needs.  After the second
      it does not, but everybody's bucket is filled up all the same. */
  lemma WakePassesExactly(p: Pool, c: Config, k: nat, missing: bool, now: int)
    requires ConfigOk(c) && k < |p.users| && ClockOk(p, now) && WithinBounds(p.users, c)
    ensures var b, r := p.users[k], LaterRound(p, c, k, missing, 1, now);
            r.delay == 0 <==>
            && Raised(b.tiles, (now - p.lastTile) / c.tileRate, c.tileSize) > 0
            && (missing ==> Raised(b.renders, (now - p.lastRender) / c.renderRate, c.renderSize) > 0)
    ensures var r := LaterRound(p, c, k, missing, 2, now); r.delay > 0 && FilledUp(p, r.pool, c, now)
  {
    hide FillUp;
    FillsUp(p, c, now);
    DivNonNegative(now - p.lastTile, c.tileRate);
    DivNonNegative(now - p.lastRender, c.renderRate);
    RoundCharges(FillUp(p, c, now).users[k], missing);
  }

  /** So nobody is locked out: once a token has come due, a client whose buckets can hold one gets
      through. */
  lemma DueTokensLetPass(p: Pool, c: Config, k: nat, ip: Address, missing: bool, now: int)
    requires ConfigOk(c) && k < |p.users| && WithinBounds(p.users, c) && 0 < c.tileSize && 0 < c.renderSize
    requires p.lastTile + c.tileRate <= now && p.lastRender + c.renderRate <= now
    ensures FirstRounds(p, c, k, ip, missing, now).delay == 0
  {
    AtLeastOne(now - p.lastTile, c.tileRate);
    AtLeastOne(now - p.lastRender, c.renderRate);
    PassesExactly(p, c, k, ip, missing, now);
  }

  // ------------------------------------------------------------ the shared table

  class SharedPool {
    const cfg: Config
    var users: array<Bucket>
    var lastTile: int
    var lastRender: int

    ghost function Contents(): Pool
      reads this, users
    {
      Pool(users[..], lastTile, lastRender)
    }

    constructor (cfg: Config, size: nat, now: int, next: int)
      ensures this.cfg == cfg && fresh(users)
      ensures Contents() == Pool(seq(size, _ => Bucket(0, 0, 0)), now, next)
    {
      this.cfg := cfg;
      users := new Bucket[size](_ => Bucket(0, 0, 0));
      lastTile, lastRender := now, next;
    }

    /** Take what one round takes from slot `k`. */
    method Take(k: nat, missing: bool) returns (delay: int)
      requires k < users.Length
      modifies users
      ensures var r := TakeRound(old(users[k]), missing); delay == r.delay && users[..] == old(users[..])[k := r.bucket]
    {
      delay := 0;
      if users[k].tiles > 0 {
        users[k] := users[k].(tiles := users[k].tiles - 1);
      } else {
        delay := 1;
      }
      if missing {
        if users[k].renders > 0 {
          users[k] := users[k].(renders := users[k].renders - 1);
        } else {
          delay := 2;
        }
      }
    }

    /** Give every bucket the tokens that came due since the last fill-up. */
    method Refill(now: int)
      requires ConfigOk(cfg) && ClockOk(Contents(), now)
      modifies this, users
      ensures users == old(users) && Contents() == old(FillUp(Contents(), cfg, now))
      ensures WithinBounds(old(users[..]), cfg) ==> FilledUp(old(Contents()), Contents(), cfg, now)
    {
      var tt := (now - lastTile) / cfg.tileRate;
      var rt := (now - lastRender) / cfg.renderRate;
      if tt > 0 || rt > 0 {
        for i := 0 to users.Length
          modifies users
          invariant forall j :: 0 <= j < i ==> users[j] == Topped(old(users[j]), tt, rt, cfg)
          invariant forall j :: i <= j < users.Length ==> users[j] == old(users[j])
        {
          users[i] := users[i].(tiles := users[i].tiles + tt, renders := users[i].renders + rt);
          if users[i].tiles > cfg.tileSize {
            users[i] := users[i].(tiles := cfg.tileSize);
          }
          if users[i].renders > cfg.renderSize {
            users[i] := users[i].(renders := cfg.renderSize);
          }
        }
        assert users[..] == ToppedAll(old(users[..]), tt, rt, cfg);
      }
      lastTile := lastTile + cfg.tileRate * tt;
      lastRender := lastRender + cfg.renderRate * rt;
      if WithinBounds(old(users[..]), cfg) {
        FillsUp(old(Contents()), cfg, now);
      }
    }

    /** delay_allowed up to where it first lets go of the lock: 0 passes, otherwise the client
        has to sleep. */
    method Begin(k: nat, ip: Address, missing: bool, now: int) returns (delay: int)
      requires ConfigOk(cfg) && k < users.Length && ClockOk(Contents(), now)
      modifies this, users
      ensures users == old(users)
      ensures var r := FirstRounds(old(Contents()), cfg, k, ip, missing, now); Contents() == r.pool && delay == r.delay
    {
      if users[k].ip == ip {
        ghost var p0 := Contents();
        delay := Take(k, missing);
        assert Contents() == p0.(users := p0.users[k := TakeRound(p0.users[k], missing).bucket]);
        if delay > 0 {
          Refill(now);
          ghost var p1 := Contents();
          delay := Take(k, missing);
          assert Contents() == p1.(users := p1.users[k := TakeRound(p1.users[k], missing).bucket]);
        }
      } else {
        users[k] := Bucket(ip, cfg.tileSize, cfg.renderSize);
        delay := 0;
      }
    }

    /** After the sleep that round 1 or round 2 ended in: fill up, and try round 2 if it was
        round 1. */
    method Resume(k: nat, missing: bool, round: nat, now: int) returns (delay: int)
      requires ConfigOk(cfg) && k < users.Length && ClockOk(Contents(), now) && 1 <= round <= 2
      modifies this, users
      ensures users == old(users)
      ensures var r := LaterRound(old(Contents()), cfg, k, missing, round, now);
              Contents() == r.pool && (round == 1 ==> delay == r.delay)
      ensures round == 2 ==> delay > 0
    {
      Refill(now);
      delay := 1;
      if round < 2 {
        ghost var p1 := Contents();
        delay := Take(k, missing);
        assert Contents() == p1.(users := p1.users[k := TakeRound(p1.users[k], missing).bucket]);
      }
    }
  }

  datatype Rounds = Rounds(pool: Pool, delay: int)

  function RoundAt(p: Pool, k: nat, missing: bool): Rounds
    requires k < |p.users|
  {
    var r := TakeRound(p.users[k], missing);
    Rounds(p.(users := p.users[k := r.bucket]), r.delay)
  }

  function FirstRounds(p: Pool, c: Config, k: nat, ip: Address, missing: bool, now: int): Rounds
    requires ConfigOk(c) && k < |p.users| && ClockOk(p, now)
  {
    if p.users[k].ip != ip then Rounds(p.(users := p.users[k := Bucket(ip, c.tileSize, c.renderSize)]), 0)
    else
      var r := RoundAt(p, k, missing);
      if r.delay == 0 then r else RoundAt(FillUp(r.pool, c, now), k, missing)
  }

  function LaterRound(p: Pool, c: Config, k: nat, missing: bool, round: nat, now: int): Rounds
    requires ConfigOk(c) && k < |p.users| && ClockOk(p, now)
  {
    if round < 2 then RoundAt(FillUp(p, c, now), k, missing) else Rounds(FillUp(p, c, now), 1)
  }

  // ------------------------------------------------------------ requests in any interleaving

  /** A request asleep with the lock released, after its round 1 or 2 found too little. */
  datatype Waiter = Waiter(k: nat, missing: bool, round: nat)

  /** How a request got past the pool with the lock held. */
  datatype Pass = NewBucket(k: nat) | Charged(k: nat, missing: bool, tile: bool, render: bool)

  /** A round that did not let its request pass, with the levels it found. */
  datatype Failure = Failure(k: nat, missing: bool, tiles: int, renders: int)

  /** What was ever taken from a slot, how often it changed hands, and what it lost by that or for
      want of room. */
  datatype Tally = Tally(tiles: nat, renders: nat, evictions: nat, spiltTiles: int, spiltRenders: int)

  datatype World = World(pool: Pool, tally: seq<Tally>, waiters: seq<Waiter>, passed: seq<Pass>, failed: seq<Failure>,
                         toppedTiles: int, toppedRenders: int, tilesFilled: int, rendersFilled: int, clock: int)

  datatype Step =
    | Arrive(k: nat, ip: Address, missing: bool, now: int)
    | Wake(w: nat, now: int)      // got the lock back
    | GiveUp(w: nat)              // did not: the request is rejected

  predicate Enabled(s: World, step: Step) {
    match step
    case Arrive(k, _, _, now) => k < |s.pool.users| && s.clock <= now
    case Wake(w, now) => w < |s.waiters| && s.clock <= now
    case GiveUp(w) => w < |s.waiters|
  }

  function Remove<T>(s: seq<T>, i: nat): seq<T>
    requires i < |s|
  {
    s[..i] + s[i + 1..]
  }

  /** Book what a round took from slot `k`. */
  function Book(t: Tally, before: Bucket, after: Bucket): Tally
    requires after.tiles <= before.tiles && after.renders <= before.renders
  {
    t.(tiles := t.tiles + (before.tiles - after.tiles), renders := t.renders + (before.renders - after.renders))
  }

  function DoRound(s: World, k: nat, missing: bool): (r: (World, int))
    requires k < |s.pool.users| == |s.tally|
    ensures |r.0.pool.users| == |r.0.tally| == |s.tally|
  {
    var b := s.pool.users[k];
    var r := TakeRound(b, missing);
    var s' := s.(pool := RoundAt(s.pool, k, missing).pool, tally := s.tally[k := Book(s.tally[k], b, r.bucket)]);
    var pass := Charged(k, missing, r.bucket.tiles < b.tiles, r.bucket.renders < b.renders);
    (if r.delay == 0 then s'.(passed := s.passed + [pass])
     else s'.(failed := s.failed + [Failure(k, missing, b.tiles, b.renders)]), r.delay)
  }

  /** What does not fit of a level. */
  function Over(level: int, size: int): nat {
    if level > size then level - size else 0
  }

  /** Book what does not fit of the tokens due. */
  function Spill(t: Tally, b: Bucket, tt: int, rt: int, c: Config): Tally {
    t.(spiltTiles := t.spiltTiles + Over(b.tiles + tt, c.tileSize),
       spiltRenders := t.spiltRenders + Over(b.renders + rt, c.renderSize))
  }

  function SpillAll(tally: seq<Tally>, users: seq<Bucket>, tt: int, rt: int, c: Config): (r: seq<Tally>)
    requires |users| == |tally|
    ensures |r| == |tally| && forall i :: 0 <= i < |r| ==> r[i] == Spill(tally[i], users[i], tt, rt, c)
  {
    seq(|tally|, i requires 0 <= i < |tally| => Spill(tally[i], users[i], tt, rt, c))
  }

  /** The slot changes hands, and what was in it is lost. */
  function Evicted(t: Tally, b: Bucket): Tally {
    t.(evictions := t.evictions + 1, spiltTiles := t.spiltTiles + b.tiles, spiltRenders := t.spiltRenders + b.renders)
  }

  function DoFill(s: World, c: Config, now: int): World
    requires ConfigOk(c) && ClockOk(s.pool, now) && |s.pool.users| == |s.tally|
  {
    s.(pool := FillUp(s.pool, c, now),
       tally := SpillAll(s.tally, s.pool.users, TopUps(now, s.pool.lastTile, c.tileRate),
                         TopUps(now, s.pool.lastRender, c.renderRate), c),
       toppedTiles := s.toppedTiles + TopUps(now, s.pool.lastTile, c.tileRate),
       toppedRenders := s.toppedRenders + TopUps(now, s.pool.lastRender, c.renderRate),
       tilesFilled := now, rendersFilled := now)
  }

  function DoArrive(s: World, c: Config, k: nat, ip: Address, missing: bool, now: int): World
    requires ConfigOk(c) && k < |s.pool.users| == |s.tally| && ClockOk(s.pool, now)
  {
    if s.pool.users[k].ip != ip then
      s.(pool := s.pool.(users := s.pool.users[k := Bucket(ip, c.tileSize, c.renderSize)]),
         tally := s.tally[k := Evicted(s.tally[k], s.pool.users[k])],
         passed := s.passed + [NewBucket(k)], clock := now)
    else
      var (s1, d1) := DoRound(s.(clock := now), k, missing);
      if d1 == 0 then s1
      else
        var (s2, d2) := DoRound(DoFill(s1, c, now), k, missing);
        if d2 == 0 then s2 else s2.(waiters := s2.waiters + [Waiter(k, missing, 1)])
  }

  function DoWake(s: World, c: Config, w: nat, now: int): World
    requires ConfigOk(c) && w < |s.waiters| && s.waiters[w].k < |s.pool.users| == |s.tally| && ClockOk(s.pool, now)
  {
    var Waiter(k, missing, round) := s.waiters[w];
    var s1 := DoFill(s.(clock := now, waiters := Remove(s.waiters, w)), c, now);
    if round < 2 then
      var (s2, d2) := DoRound(s1, k, missing);
      if d2 == 0 then s2 else s2.(waiters := s2.waiters + [Waiter(k, missing, 2)])
    else s1
  }

  /** The steps do to the pool what the code does under the lock, and a request passes, goes to
      sleep or is turned away as the code decides. */
  lemma ArriveFollowsTheCode(s: World, c: Config, k: nat, ip: Address, missing: bool, now: int)
    requires ConfigOk(c) && k < |s.pool.users| == |s.tally| && ClockOk(s.pool, now)
    ensures var r, s' := FirstRounds(s.pool, c, k, ip, missing, now), DoArrive(s, c, k, ip, missing, now);
            && s'.pool == r.pool
            && |s'.passed| == |s.passed| + (if r.delay == 0 then 1 else 0)
            && s'.waiters == s.waiters + (if r.delay == 0 then [] else [Waiter(k, missing, 1)])
  {
    assert s.waiters + [] == s.waiters;
  }

  lemma WakeFollowsTheCode(s: World, c: Config, w: nat, now: int)
    requires ConfigOk(c) && w < |s.waiters| && 1 <= s.waiters[w].round <= 2
    requires s.waiters[w].k < |s.pool.users| == |s.tally| && ClockOk(s.pool, now)
    ensures var Waiter(k, missing, round) := s.waiters[w];
            var r, s' := LaterRound(s.pool, c, k, missing, round, now), DoWake(s, c, w, now);
            && s'.pool == r.pool
            && |s'.passed| == |s.passed| + (if r.delay == 0 then 1 else 0)
            && s'.waiters == Remove(s.waiters, w) + (if r.delay == 0 || round == 2 then [] else [Waiter(k, missing, 2)])
  {
    assert Remove(s.waiters, w) + [] == Remove(s.waiters, w);
  }

  // ------------------------------------------------------------ what every run keeps

  /** Levels within bounds, and every token that was given taken, spilt or still there. */
  predicate SlotOk(c: Config, start: Bucket, b: Bucket, t: Tally, tt: int, rt: int) {
    && 0 <= b.tiles <= c.tileSize && 0 <= b.renders <= c.renderSize
    && 0 <= t.spiltTiles && 0 <= t.spiltRenders
    && t.tiles + b.tiles + t.spiltTiles == start.tiles + tt + c.tileSize * t.evictions
    && t.renders + b.renders + t.spiltRenders == start.renders + rt + c.renderSize * t.evictions
  }

  predicate PassOk(p: Pass) {
    p.Charged? ==> p.tile && (p.missing ==> p.render)
  }

  /** How many of those that passed at slot `k` were charged, and how many of them for a render. */
  function Charges(passed: seq<Pass>, k: nat): nat {
    if passed == [] then 0
    else
      var p := passed[|passed| - 1];
      Charges(passed[..|passed| - 1], k) + if p.Charged? && p.k == k then 1 else 0
  }

  function RenderCharges(passed: seq<Pass>, k: nat): nat {
    if passed == [] then 0
    else
      var p := passed[|passed| - 1];
      RenderCharges(passed[..|passed| - 1], k) + if p.Charged? && p.k == k && p.missing then 1 else 0
  }

  function NewBuckets(passed: seq<Pass>, k: nat): nat {
    if passed == [] then 0
    else NewBuckets(passed[..|passed| - 1], k) + if passed[|passed| - 1] == NewBucket(k) then 1 else 0
  }

  /** A failing round takes a tile token all the same when only the render token was missing,
      and a render token when only the tile token was. */
  predicate LosesTile(f: Failure) {
    f.missing && f.tiles > 0 && f.renders <= 0
  }

  predicate LosesRender(f: Failure) {
    f.missing && f.tiles <= 0 && f.renders > 0
  }

  function LostTiles(failed: seq<Failure>, k: nat): nat {
    if failed == [] then 0
    else
      var f := failed[|failed| - 1];
      LostTiles(failed[..|failed| - 1], k) + if f.k == k && LosesTile(f) then 1 else 0
  }

  function LostRenders(failed: seq<Failure>, k: nat): nat {
    if failed == [] then 0
    else
      var f := failed[|failed| - 1];
      LostRenders(failed[..|failed| - 1], k) + if f.k == k && LosesRender(f) then 1 else 0
  }

  /** Every token taken from slot `k` let a request pass or was lost in a failing round. */
  predicate PaidFor(passed: seq<Pass>, failed: seq<Failure>, k: nat, t: Tally) {
    && t.tiles == Charges(passed, k) + LostTiles(failed, k)
    && t.renders == RenderCharges(passed, k) + LostRenders(failed, k)
    && t.evictions == NewBuckets(passed, k)
  }

  lemma OneMorePass(passed: seq<Pass>, p: Pass, k: nat)
    ensures Charges(passed + [p], k) == Charges(passed, k) + if p.Charged? && p.k == k then 1 else 0
    ensures RenderCharges(passed + [p], k) ==
            RenderCharges(passed, k) + if p.Charged? && p.k == k && p.missing then 1 else 0
    ensures NewBuckets(passed + [p], k) == NewBuckets(passed, k) + if p == NewBucket(k) then 1 else 0
  {
    assert (passed + [p])[..|passed + [p]| - 1] == passed;
  }

  lemma OneMoreFailure(failed: seq<Failure>, f: Failure, k: nat)
    ensures LostTiles(failed + [f], k) == LostTiles(failed, k) + if f.k == k && LosesTile(f) then 1 else 0
    ensures LostRenders(failed + [f], k) == LostRenders(failed, k) + if f.k == k && LosesRender(f) then 1 else 0
  {
    assert (failed + [f])[..|failed + [f]| - 1] == failed;
  }

  /** A round books exactly what it took as a pass or a loss. */
  lemma RoundPays(s: World, k: nat, missing: bool, i: nat)
    requires k < |s.pool.users| == |s.tally| && i < |s.tally| && PaidFor(s.passed, s.failed, i, s.tally[i])
    requires 0 <= s.pool.users[k].tiles && 0 <= s.pool.users[k].renders
    ensures var s' := DoRound(s, k, missing).0; PaidFor(s'.passed, s'.failed, i, s'.tally[i])
  {
    hide Charges, RenderCharges, NewBuckets, LostTiles, LostRenders;
    var b := s.pool.users[k];
    RoundCharges(b, missing);
    var after := TakeRound(b, missing).bucket;
    OneMorePass(s.passed, Charged(k, missing, after.tiles < b.tiles, after.renders < b.renders), i);
    OneMoreFailure(s.failed, Failure(k, missing, b.tiles, b.renders), i);
  }

  ghost predicate Good(c: Config, start: Pool, s: World) {
    && |start.users| == |s.pool.users| == |s.tally|
    && (forall k :: 0 <= k < |s.tally| ==>
          SlotOk(c, start.users[k], s.pool.users[k], s.tally[k], s.toppedTiles, s.toppedRenders))
    && (forall i :: 0 <= i < |s.passed| ==> PassOk(s.passed[i]))
    && (forall k :: 0 <= k < |s.tally| ==> PaidFor(s.passed, s.failed, k, s.tally[k]))
    && (forall w :: 0 <= w < |s.waiters| ==> s.waiters[w].k < |s.pool.users| && 1 <= s.waiters[w].round <= 2)
    && s.tilesFilled <= s.clock && s.rendersFilled <= s.clock
    && DueOk(start.lastTile, s.pool.lastTile, s.toppedTiles, s.tilesFilled, c.tileRate)
    && DueOk(start.lastRender, s.pool.lastRender, s.toppedRenders, s.rendersFilled, c.renderRate)
  }

  /** However the fill-ups were spread, the tokens given so far are those due by the last. */
  predicate DueOk(start: int, last: int, topped: int, lastFill: int, rate: int)
  {
    && 0 < rate && start <= lastFill && last <= lastFill
    && last == start + rate * topped
    && topped == (lastFill - start) / rate
  }

  lemma FillKeepsDue(start: int, last: int, topped: int, lastFill: int, rate: int, now: int)
    requires DueOk(start, last, topped, lastFill, rate) && lastFill <= now
    ensures var t := TopUps(now, last, rate);
            t >= 0 && DueOk(start, last + rate * t, topped + t, now, rate)
  {
    var t := TopUps(now, last, rate);
    var rest := (now - last) % rate;
    assert now - last == rate * t + rest;
    assert rate * (topped + t) == rate * topped + rate * t;
    assert now - start == rate * (topped + t) + rest;
    DivIs(now - start, rate, topped + t, rest);
    assert t >= 0 by { DivNonNegative(now - last, rate); }
  }

  /** Of one level: what comes due is there afterwards, or was spilt. */
  lemma FillKeepsSlot(c: Config, start: Bucket, b: Bucket, t: Tally, tt: int, rt: int, dt: int, dr: int)
    requires SlotOk(c, start, b, t, tt, rt) && 0 <= dt && 0 <= dr
    ensures SlotOk(c, start, Topped(b, dt, dr, c), Spill(t, b, dt, dr, c), tt + dt, rt + dr)
  {
  }

  lemma FillUpIs(p: Pool, c: Config, now: int, k: nat)
    requires ConfigOk(c) && ClockOk(p, now) && k < |p.users|
    requires 0 <= p.users[k].tiles <= c.tileSize && 0 <= p.users[k].renders <= c.renderSize
    ensures var tt, rt := TopUps(now, p.lastTile, c.tileRate), TopUps(now, p.lastRender, c.renderRate);
            0 <= tt && 0 <= rt && |FillUp(p, c, now).users| == |p.users|
            && FillUp(p, c, now).users[k] == Topped(p.users[k], tt, rt, c)
  {
    DivNonNegative(now - p.lastTile, c.tileRate);
    DivNonNegative(now - p.lastRender, c.renderRate);
  }

  lemma FillKeepsGood(c: Config, start: Pool, s: World, now: int)
    requires ConfigOk(c) && Good(c, start, s) && s.clock <= now
    ensures ClockOk(s.pool, now) && |s.pool.users| == |s.tally| && Good(c, start, DoFill(s, c, now).(clock := now))
  {
    hide DueOk, TopUps, PaidFor, SlotOk, FillUp, Spill, Topped;
    DueClock(start.lastTile, s.pool.lastTile, s.toppedTiles, s.tilesFilled, c.tileRate);
    DueClock(start.lastRender, s.pool.lastRender, s.toppedRenders, s.rendersFilled, c.renderRate);
    FillKeepsDue(start.lastTile, s.pool.lastTile, s.toppedTiles, s.tilesFilled, c.tileRate, now);
    FillKeepsDue(start.lastRender, s.pool.lastRender, s.toppedRenders, s.rendersFilled, c.renderRate, now);
    var tt, rt := TopUps(now, s.pool.lastTile, c.tileRate), TopUps(now, s.pool.lastRender, c.renderRate);
    var s' := DoFill(s, c, now).(clock := now);
    FillUpMoves(s.pool, c, now);
    forall k | 0 <= k < |s.tally|
      ensures SlotOk(c, start.users[k], s'.pool.users[k], s'.tally[k], s'.toppedTiles, s'.toppedRenders)
      ensures PaidFor(s'.passed, s'.failed, k, s'.tally[k])
    {
      SlotBounds(c, start.users[k], s.pool.users[k], s.tally[k], s.toppedTiles, s.toppedRenders);
      FillUpIs(s.pool, c, now, k);
      FillKeepsSlot(c, start.users[k], s.pool.users[k], s.tally[k], s.toppedTiles, s.toppedRenders, tt, rt);
      SpillPaid(s.passed, s.failed, k, s.tally[k], s.pool.users[k], tt, rt, c);
    }
  }

  lemma FillUpMoves(p: Pool, c: Config, now: int)
    requires ConfigOk(c) && ClockOk(p, now)
    ensures var p' := FillUp(p, c, now);
            && |p'.users| == |p.users| && p'.lastTile == p.lastTile + c.tileRate * TopUps(now, p.lastTile, c.tileRate)
            && p'.lastRender == p.lastRender + c.renderRate * TopUps(now, p.lastRender, c.renderRate)
  {
  }

  lemma SlotBounds(c: Config, start: Bucket, b: Bucket, t: Tally, tt: int, rt: int)
    requires SlotOk(c, start, b, t, tt, rt)
    ensures 0 <= b.tiles <= c.tileSize && 0 <= b.renders <= c.renderSize
  {
  }

  lemma SpillPaid(passed: seq<Pass>, failed: seq<Failure>, k: nat, t: Tally, b: Bucket, tt: int, rt: int, c: Config)
    requires PaidFor(passed, failed, k, t)
    ensures PaidFor(passed, failed, k, Spill(t, b, tt, rt, c))
  {
  }

  lemma DueClock(start: int, last: int, topped: int, lastFill: int, rate: int)
    requires DueOk(start, last, topped, lastFill, rate)
    ensures last <= lastFill
  {
  }

  lemma RoundKeepsGood(c: Config, start: Pool, s: World, k: nat, missing: bool)
    requires ConfigOk(c) && Good(c, start, s) && k < |s.pool.users|
    ensures Good(c, start, DoRound(s, k, missing).0)
  {
    hide DueOk, PaidFor;
    var b := s.pool.users[k];
    assert SlotOk(c, start.users[k], b, s.tally[k], s.toppedTiles, s.toppedRenders);
    RoundCharges(b, missing);
    forall i | 0 <= i < |s.tally| {
      RoundPays(s, k, missing, i);
    }
  }

  lemma EvictKeepsGood(c: Config, start: Pool, s: World, k: nat, ip: Address, now: int)
    requires ConfigOk(c) && Good(c, start, s) && k < |s.pool.users| && s.clock <= now
    ensures Good(c, start, s.(pool := s.pool.(users := s.pool.users[k := Bucket(ip, c.tileSize, c.renderSize)]),
                              tally := s.tally[k := Evicted(s.tally[k], s.pool.users[k])],
                              passed := s.passed + [NewBucket(k)], clock := now))
  {
    hide DueOk;
    forall i | 0 <= i < |s.tally| {
      OneMorePass(s.passed, NewBucket(k), i);
    }
    var n := s.tally[k].evictions;
    assert c.tileSize * (n + 1) == c.tileSize * n + c.tileSize;
    assert c.renderSize * (n + 1) == c.renderSize * n + c.renderSize;
  }

  lemma WaitersKeepGood(c: Config, start: Pool, s: World, waiters: seq<Waiter>)
    requires Good(c, start, s)
    requires forall w :: 0 <= w < |waiters| ==> waiters[w].k < |s.pool.users| && 1 <= waiters[w].round <= 2
    ensures Good(c, start, s.(waiters := waiters))
  {
    hide DueOk, SlotOk, PaidFor;
  }

  lemma ClockKeepsGood(c: Config, start: Pool, s: World, now: int)
    requires Good(c, start, s) && s.clock <= now
    ensures Good(c, start, s.(clock := now)) && ClockOk(s.pool, now)
  {
    hide SlotOk, PaidFor;
  }

  lemma ArriveKeepsGood(c: Config, start: Pool, s: World, k: nat, ip: Address, missing: bool, now: int)
    requires ConfigOk(c) && Good(c, start, s) && k < |s.pool.users| && s.clock <= now
    ensures ClockOk(s.pool, now) && |s.pool.users| == |s.tally| && Good(c, start, DoArrive(s, c, k, ip, missing, now))
  {
    hide SlotOk, DueOk, PaidFor, TakeRound, Topped;
    ClockKeepsGood(c, start, s, now);
    if s.pool.users[k].ip != ip {
      EvictKeepsGood(c, start, s, k, ip, now);
    } else {
      var s0 := s.(clock := now);
      RoundKeepsGood(c, start, s0, k, missing);
      var (s1, d1) := DoRound(s0, k, missing);
      if d1 != 0 {
        FillKeepsGood(c, start, s1, now);
        var s2 := DoFill(s1, c, now);
        assert s2 == s2.(clock := now);
        RoundKeepsGood(c, start, s2, k, missing);
        var s3 := DoRound(s2, k, missing).0;
        WaitersKeepGood(c, start, s3, s3.waiters + [Waiter(k, missing, 1)]);
      }
    }
  }

  lemma WakeKeepsGood(c: Config, start: Pool, s: World, w: nat, now: int)
    requires ConfigOk(c) && Good(c, start, s) && w < |s.waiters| && s.clock <= now
    ensures ClockOk(s.pool, now) && s.waiters[w].k < |s.pool.users| == |s.tally| && Good(c, start, DoWake(s, c, w, now))
  {
    hide SlotOk, DueOk, PaidFor, TakeRound, Topped;
    ClockKeepsGood(c, start, s, now);
    var Waiter(k, missing, round) := s.waiters[w];
    var s0 := s.(clock := now, waiters := Remove(s.waiters, w));
    WaitersKeepGood(c, start, s.(clock := now), Remove(s.waiters, w));
    FillKeepsGood(c, start, s0, now);
    var s1 := DoFill(s0, c, now);
    assert s1 == s1.(clock := now);
    if round < 2 {
      RoundKeepsGood(c, start, s1, k, missing);
      var s2 := DoRound(s1, k, missing).0;
      WaitersKeepGood(c, start, s2, s2.waiters + [Waiter(k, missing, 2)]);
    }
  }

  predicate StartOk(c: Config, start: Pool) {
    forall k :: 0 <= k < |start.users| ==>
         0 <= start.users[k].tiles <= c.tileSize && 0 <= start.users[k].renders <= c.renderSize
  }

  function Init(start: Pool): World {
    World(start, seq(|start.users|, _ => Tally(0, 0, 0, 0, 0)), [], [], [], 0, 0, start.lastTile, start.lastRender,
          if start.lastTile < start.lastRender then start.lastRender else start.lastTile)
  }

  /** Any number of requests, in any interleaving the lock allows. */
  ghost function Run(c: Config, start: Pool, steps: seq<Step>): (r: Option<World>)
    requires ConfigOk(c) && StartOk(c, start)
    ensures r.Some? ==> Good(c, start, r.value)
  {
    if steps == [] then InitIsGood(c, start); Some(Init(start))
    else
      match Run(c, start, steps[..|steps| - 1])
      case None => None
      case Some(s) =>
        var step := steps[|steps| - 1];
        if !Enabled(s, step) then None
        else
          match step
          case Arrive(k, ip, missing, now) =>
            ArriveKeepsGood(c, start, s, k, ip, missing, now); Some(DoArrive(s, c, k, ip, missing, now))
          case Wake(w, now) => WakeKeepsGood(c, start, s, w, now); Some(DoWake(s, c, w, now))
          case GiveUp(w) =>
            WaitersKeepGood(c, start, s, Remove(s.waiters, w)); Some(s.(waiters := Remove(s.waiters, w)))
  }

  lemma InitIsGood(c: Config, start: Pool)
    requires ConfigOk(c) && StartOk(c, start)
    ensures Good(c, start, Init(start))
  {
  }

  /** No token is ever lost from sight: over any run, what was taken from a slot, what is in it and
      what was spilt, at full buckets or at a change of hands, is what it started with, the tokens
      that came due, and one bucketful for every change of hands; and the tokens that came due are
      those of the time up to the last fill-up, however many fill-ups there were. */
  lemma TokensConserved(c: Config, start: Pool, steps: seq<Step>, k: nat)
    requires ConfigOk(c) && StartOk(c, start) && k < |start.users| && Run(c, start, steps).Some?
    ensures var s := Run(c, start, steps).value;
            && k < |s.pool.users| && k < |s.tally|
            && var b, t := s.pool.users[k], s.tally[k];
            && 0 <= b.tiles <= c.tileSize && 0 <= b.renders <= c.renderSize && 0 <= t.spiltTiles && 0 <= t.spiltRenders
            && t.tiles + b.tiles + t.spiltTiles ==
               start.users[k].tiles + (s.tilesFilled - start.lastTile) / c.tileRate + c.tileSize * t.evictions
            && t.renders + b.renders + t.spiltRenders ==
               start.users[k].renders + (s.rendersFilled - start.lastRender) / c.renderRate + c.renderSize * t.evictions
  {
    hide Run, PaidFor;
    var s := Run(c, start, steps).value;
    assert SlotOk(c, start.users[k], s.pool.users[k], s.tally[k], s.toppedTiles, s.toppedRenders);
  }

  /** The limit itself.  However requests interleave, those that passed at a slot number at
      most its starting tokens, the tokens that came due, and one more than a bucketful for
      every change of hands; likewise those among them that asked for a rendering. */
  lemma PassesAreLimited(c: Config, start: Pool, steps: seq<Step>, k: nat)
    requires ConfigOk(c) && StartOk(c, start) && k < |start.users| && Run(c, start, steps).Some?
    ensures var s := Run(c, start, steps).value;
            && Charges(s.passed, k) + NewBuckets(s.passed, k)
               <= start.users[k].tiles + (s.tilesFilled - start.lastTile) / c.tileRate
                  + (c.tileSize + 1) * NewBuckets(s.passed, k)
            && RenderCharges(s.passed, k)
               <= start.users[k].renders + (s.rendersFilled - start.lastRender) / c.renderRate
                  + c.renderSize * NewBuckets(s.passed, k)
  {
    hide Run, SlotOk, DueOk, PassOk, Charges, RenderCharges, NewBuckets;
    var s := Run(c, start, steps).value;
    TokensConserved(c, start, steps, k);
    assert PaidFor(s.passed, s.failed, k, s.tally[k]);
    assert (c.tileSize + 1) * s.tally[k].evictions == c.tileSize * s.tally[k].evictions + s.tally[k].evictions;
  }

  /** Whoever passed with the lock held, other than by a change of hands, took a tile token, and
      a render token if its tile was missing. */
  lemma PassedWasCharged(c: Config, start: Pool, steps: seq<Step>, i: nat)
    requires ConfigOk(c) && StartOk(c, start) && Run(c, start, steps).Some? && i < |Run(c, start, steps).value.passed|
    ensures var p := Run(c, start, steps).value.passed[i]; p.Charged? ==> p.tile && (p.missing ==> p.render)
  {
    assert PassOk(Run(c, start, steps).value.passed[i]);
  }

  /** Nothing else is ever taken: the tokens gone from a slot are those of the requests that
      passed there and those lost in failing rounds that found one kind of token and lacked the
      other. */
  lemma TokensAccountedFor(c: Config, start: Pool, steps: seq<Step>, k: nat)
    requires ConfigOk(c) && StartOk(c, start) && k < |start.users| && Run(c, start, steps).Some?
    ensures var s := Run(c, start, steps).value;
            && k < |s.tally|
            && s.tally[k].tiles == Charges(s.passed, k) + LostTiles(s.failed, k)
            && s.tally[k].renders == RenderCharges(s.passed, k) + LostRenders(s.failed, k)
            && s.tally[k].evictions == NewBuckets(s.passed, k)
  {
    hide Run, SlotOk, DueOk, PassOk, Charges, RenderCharges, NewBuckets, LostTiles, LostRenders;
    var s := Run(c, start, steps).value;
    assert PaidFor(s.passed, s.failed, k, s.tally[k]);
  }

  lemma RunOneMore(c: Config, start: Pool, steps: seq<Step>, step: Step)
    requires ConfigOk(c) && StartOk(c, start) && Run(c, start, steps).Some? && Enabled(Run(c, start, steps).value, step)
    ensures var s := Run(c, start, steps).value; var r := Run(c, start, steps + [step]);
            && Good(c, start, s)
            && (step.Arrive? ==> step.k < |s.pool.users| == |s.tally| && ClockOk(s.pool, step.now)
                                 && r == Some(DoArrive(s, c, step.k, step.ip, step.missing, step.now)))
            && (step.Wake? ==> s.waiters[step.w].k < |s.pool.users| == |s.tally| && ClockOk(s.pool, step.now)
                               && r == Some(DoWake(s, c, step.w, step.now)))
  {
    hide SlotOk, PaidFor, PassOk, DoArrive, DoWake;
    var s := Run(c, start, steps).value;
    assert (steps + [step])[..|steps|] == steps;
    if step.Arrive? {
      ArriveKeepsGood(c, start, s, step.k, step.ip, step.missing, step.now);
    } else if step.Wake? {
      WakeKeepsGood(c, start, s, step.w, step.now);
    }
  }

  /** Slot `k` still belongs to `ip`, has `tiles` tile tokens or more, and no render token came
      due by `until`. */
  predicate Dry(s: World, c: Config, k: nat, ip: Address, tiles: int, until: int)
    requires 0 < c.renderRate
  {
    && k < |s.pool.users| == |s.tally| && s.pool.users[k].ip == ip
    && tiles <= s.pool.users[k].tiles && s.pool.users[k].renders == 0
    && s.pool.lastRender <= until < s.pool.lastRender + c.renderRate
  }

  lemma DryFill(s: World, c: Config, k: nat, ip: Address, tiles: int, now: int, until: int)
    requires ConfigOk(c) && ClockOk(s.pool, now) && now <= until
    requires Dry(s, c, k, ip, tiles, until) && tiles <= c.tileSize
    ensures Dry(DoFill(s, c, now), c, k, ip, tiles, until)
  {
    assert TopUps(now, s.pool.lastRender, c.renderRate) == 0 by {
      DivIs(now - s.pool.lastRender, c.renderRate, 0, now - s.pool.lastRender);
    }
    DivNonNegative(now - s.pool.lastTile, c.tileRate);
  }

  lemma DryRound(s: World, c: Config, k: nat, ip: Address, tiles: int, until: int)
    requires ConfigOk(c) && Dry(s, c, k, ip, tiles, until) && 0 < tiles
    ensures var (s', d) := DoRound(s, k, true);
            && d > 0 && Dry(s', c, k, ip, tiles - 1, until) && s'.tally[k].tiles == s.tally[k].tiles + 1
            && s'.passed == s.passed && s'.waiters == s.waiters
  {
  }

  /** A request that is turned away may have paid: one for a missing tile, at a bucket with
      three tile tokens, no render token and none due until the end, fails in all its three
      rounds, two sleeps and three fill-ups, and leaves the bucket three tokens poorer. */
  lemma TurnedAwayStillPays(c: Config, start: Pool, k: nat, t1: int, t2: int, t3: int)
    requires ConfigOk(c) && StartOk(c, start) && k < |start.users|
    requires start.users[k].tiles >= 3 && start.users[k].renders == 0
    requires start.lastTile <= t1 && start.lastRender <= t1 <= t2 <= t3 < start.lastRender + c.renderRate
    ensures var steps := [Arrive(k, start.users[k].ip, true, t1), Wake(0, t2), Wake(0, t3)];
            && Run(c, start, steps).Some?
            && var s := Run(c, start, steps).value;
               && s.passed == [] && s.waiters == []
               && k < |s.tally| && s.tally[k].tiles == 3 && LostTiles(s.failed, k) == 3
  {
    hide Run, Good, DoRound, DoFill, Dry;
    var ip := start.users[k].ip;
    var steps0: seq<Step> := [];
    var s0 := Init(start);
    assert Run(c, start, steps0) == Some(s0) by { RunStarts(c, start); }
    assert Dry(s0, c, k, ip, 3, t3) by { DryStart(c, start, k, t3); }
    RunOneMore(c, start, steps0, Arrive(k, ip, true, t1));
    var s1 := DoArrive(s0, c, k, ip, true, t1);
    DryArrive(s0, c, k, ip, t1, t3);
    var steps1 := steps0 + [Arrive(k, ip, true, t1)];
    RunOneMore(c, start, steps1, Wake(0, t2));
    var s2 := DoWake(s1, c, 0, t2);
    DryWake(s1, c, k, ip, t2, t3);
    var steps2 := steps1 + [Wake(0, t2)];
    RunOneMore(c, start, steps2, Wake(0, t3));
    var s3 := DoWake(s2, c, 0, t3);
    LastWake(s2, c, t3);
    assert s3.tally[k].tiles == s2.tally[k].tiles by {
      FillKeepsBooks(s2.(clock := t3, waiters := Remove(s2.waiters, 0)), c, t3);
    }
    var steps3 := steps2 + [Wake(0, t3)];
    assert steps3 == [Arrive(k, ip, true, t1), Wake(0, t2), Wake(0, t3)];
    TokensAccountedFor(c, start, steps3, k);
    assert s3.passed == [];
  }

  lemma RunStarts(c: Config, start: Pool)
    requires ConfigOk(c) && StartOk(c, start)
    ensures Run(c, start, []) == Some(Init(start))
  {
  }

  lemma DryStart(c: Config, start: Pool, k: nat, until: int)
    requires ConfigOk(c) && k < |start.users| && start.users[k].tiles >= 3 && start.users[k].renders == 0
    requires start.lastRender <= until < start.lastRender + c.renderRate
    ensures Dry(Init(start), c, k, start.users[k].ip, 3, until)
    ensures Init(start).tally[k].tiles == 0
  {
  }

  lemma DryArrive(s: World, c: Config, k: nat, ip: Address, now: int, until: int)
    requires ConfigOk(c) && 3 <= c.tileSize && Dry(s, c, k, ip, 3, until)
    requires ClockOk(s.pool, now) && now <= until && s.waiters == []
    ensures var s' := DoArrive(s, c, k, ip, true, now);
            && Dry(s', c, k, ip, 1, until) && s'.tally[k].tiles == s.tally[k].tiles + 2 && s'.passed == s.passed
            && s'.waiters == [Waiter(k, true, 1)] && s'.clock == now
  {
    hide DoRound, DoFill;
    var s0 := s.(clock := now);
    DryRound(s0, c, k, ip, 3, until);
    var s1 := DoRound(s0, k, true).0;
    assert ClockOk(s1.pool, now) && s1.clock == now by { RoundKeepsClock(s0, k, true); }
    DryFill(s1, c, k, ip, 2, now, until);
    var s2 := DoFill(s1, c, now);
    FillKeepsBooks(s1, c, now);
    DryRound(s2, c, k, ip, 2, until);
    RoundKeepsClock(s2, k, true);
  }

  lemma DryWake(s: World, c: Config, k: nat, ip: Address, now: int, until: int)
    requires ConfigOk(c) && 1 <= c.tileSize && Dry(s, c, k, ip, 1, until) && ClockOk(s.pool, now) && now <= until
    requires s.waiters == [Waiter(k, true, 1)]
    ensures var s' := DoWake(s, c, 0, now);
            && Dry(s', c, k, ip, 0, until) && s'.tally[k].tiles == s.tally[k].tiles + 1 && s'.passed == s.passed
            && s'.waiters == [Waiter(k, true, 2)] && s'.clock == now
  {
    hide DoRound, DoFill;
    var s0 := s.(clock := now, waiters := Remove(s.waiters, 0));
    DryFill(s0, c, k, ip, 1, now, until);
    FillKeepsBooks(s0, c, now);
    var s1 := DoFill(s0, c, now);
    DryRound(s1, c, k, ip, 1, until);
    RoundKeepsClock(s1, k, true);
    assert Remove(s.waiters, 0) == [];
  }

  /** The second sleep ends in rejection. */
  lemma LastWake(s: World, c: Config, now: int)
    requires ConfigOk(c) && ClockOk(s.pool, now) && |s.waiters| == 1 && s.waiters[0].round == 2
    requires s.waiters[0].k < |s.pool.users| == |s.tally|
    ensures var s' := DoWake(s, c, 0, now); s'.waiters == [] && s'.passed == s.passed
  {
  }

  lemma RoundKeepsClock(s: World, k: nat, missing: bool)
    requires k < |s.pool.users| == |s.tally|
    ensures var s' := DoRound(s, k, missing).0;
            s'.clock == s.clock && s'.pool.lastTile == s.pool.lastTile && s'.pool.lastRender == s.pool.lastRender
  {
  }

  lemma FillKeepsBooks(s: World, c: Config, now: int)
    requires ConfigOk(c) && ClockOk(s.pool, now) && |s.pool.users| == |s.tally|
    ensures var s' := DoFill(s, c, now);
            && |s'.tally| == |s.tally| && (forall k :: 0 <= k < |s.tally| ==> s'.tally[k].tiles == s.tally[k].tiles)
            && s'.passed == s.passed && s'.failed == s.failed
            && s'.waiters == s.waiters && s'.clock == s.clock
            && |s'.pool.users| == |s.pool.users|
  {
  }
}
