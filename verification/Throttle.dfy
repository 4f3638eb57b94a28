/** The distributed rate limiter: a fixed-window hit counter and a separate block key, driven by up to
    five commands per call that other calls may slip between. */
module Throttle {
  import opened Common
  import opened Redis

  /** Limits of one throttler; `ttl` and `blockDuration` are in seconds. */
  datatype Config = Config(ttl: nat, limit: nat, blockDuration: nat) {
    function Window(): nat { ttl * 1000 }

    function Block(): nat { blockDuration * 1000 }
  }

  /** What a call reports back to the guard. */
  datatype Record = Record(totalHits: nat, timeToExpire: int, isBlocked: bool, timeToBlockExpire: int)

  /** An answered INCR: when it ran and the count it returned. */
  datatype Hit = Hit(at: int, count: nat)

  /** The two keys of one client under one throttler. */
  datatype Keys = Keys(hit: Slot<nat>, block: Slot<nat>)

  /** Where a call stands between two of its commands. */
  datatype Pc =
    | Start
    | Unblocked
    | Counted(hit: Hit)
    | Untimed(hit: Hit)
    | Timed(hit: Hit, ttlMs: int)
    | Done(record: Record, served: Option<Hit>)
  {
    /** The INCR of this call, once it has been answered. */
    function HitOf(): Option<Hit> {
      match this
      case Start => None
      case Unblocked => None
      case Counted(h) => Some(h)
      case Untimed(h) => Some(h)
      case Timed(h, _) => Some(h)
      case Done(_, h) => h
    }
  }

  /** Milliseconds rounded up to whole seconds. */
  function CeilSeconds(ms: int): int { (ms + 999) / 1000 }

  function BlockedRecord(cfg: Config, blockedTtlMs: int): Record {
    Record(cfg.limit + 1, CeilSeconds(blockedTtlMs), true, CeilSeconds(blockedTtlMs))
  }

  function CountedRecord(cfg: Config, hits: nat, ttlMs: int): Record {
    var blocked := hits > cfg.limit;
    Record(hits, CeilSeconds(ttlMs), blocked, if blocked then cfg.blockDuration else 0)
  }

  /** One command of one call. */
  function Advance(cfg: Config, pc: Pc, keys: Keys, now: int): (Pc, Keys) {
    match pc
    case Start =>
      var left := Pttl(keys.block, now);
      (if left > 0 then Done(BlockedRecord(cfg, left), None) else Unblocked, keys)
    case Unblocked =>
      var slot := Incr(keys.hit, now);
      (Counted(Hit(now, slot.value.value)), keys.(hit := slot))
    case Counted(h) =>
      var left := Pttl(keys.hit, now);
      (if left <= 0 then Untimed(h) else Timed(h, left), keys)
    case Untimed(h) =>
      (Timed(h, cfg.Window()), keys.(hit := Pexpire(keys.hit, now, cfg.Window())))
    case Timed(h, ttlMs) =>
      var done := Done(CountedRecord(cfg, h.count, ttlMs), Some(h));
      (done, if h.count > cfg.limit && cfg.blockDuration > 0
             then keys.(block := Some(Entry(1, Some(now + cfg.Block()))))
             else keys)
    case Done(_, _) => (pc, keys)
  }

  // ---------------------------------------------------------------- interleaved calls

  /** Time passes, or one call issues its next command. A call that is never run again has died. */
  datatype Event = Tick(ms: nat) | Run(id: nat)

  datatype Logged = Logged(id: nat, hit: Hit)

  /** All calls on one client's keys, and every INCR answered so far in order. */
  datatype Sys = Sys(now: int, keys: Keys, calls: map<nat, Pc>, log: seq<Logged>)

  function PcOf(s: Sys, id: nat): Pc {
    if id in s.calls then s.calls[id] else Start
  }

  function Step(cfg: Config, s: Sys, e: Event): Sys {
    match e
    case Tick(ms) => s.(now := s.now + ms)
    case Run(id) =>
      var (pc, keys) := Advance(cfg, PcOf(s, id), s.keys, s.now);
      s.(keys := keys,
         calls := s.calls[id := pc],
         log := if PcOf(s, id).Unblocked? then s.log + [Logged(id, pc.hit)] else s.log)
  }

  function Init(now: int): Sys {
    Sys(now, Keys(None, None), map[], [])
  }

  function Steps(cfg: Config, s: Sys, events: seq<Event>): Sys {
    if events == [] then s
    else Step(cfg, Steps(cfg, s, events[..|events| - 1]), events[|events| - 1])
  }

  /** The calls whose INCR fell in `[t, t + window)` and whose count was within the limit. */
  function AllowedCalls(cfg: Config, s: Sys, t: int): set<nat> {
    set id | id in s.calls && IsAllowed(cfg, s.calls[id].HitOf(), t)
  }

  predicate IsAllowed(cfg: Config, hit: Option<Hit>, t: int) {
    hit.Some? && t <= hit.value.at < t + cfg.ttl * 1000 && hit.value.count <= cfg.limit
  }

  /** A count of 1 means that the INCR found no live key: it opened a new window. */
  predicate Opens(log: seq<Logged>, i: nat)
    requires i < |log|
  {
    log[i].hit.count == 1
  }

  /** Counts climb by one within a window and restart at 1, never at 0. */
  predicate Climbs(log: seq<Logged>, i: nat)
    requires i < |log|
  {
    Opens(log, i) || (i > 0 && log[i].hit.count == log[i - 1].hit.count + 1)
  }

  ghost predicate Climbing(log: seq<Logged>) {
    forall i: nat :: i < |log| ==> Climbs(log, i)
  }

  ghost predicate Timely(log: seq<Logged>, now: int) {
    && (forall i, j :: 0 <= i <= j < |log| ==> log[i].hit.at <= log[j].hit.at)
    && (forall i :: 0 <= i < |log| ==> log[i].hit.at <= now)
  }

  /** `at` is at least a window length after every window opening in the log. */
  ghost predicate WindowsOver(cfg: Config, log: seq<Logged>, at: int) {
    forall i :: 0 <= i < |log| && Opens(log, i) ==> log[i].hit.at + cfg.Window() <= at
  }

  ghost predicate Spaced(cfg: Config, log: seq<Logged>) {
    forall i, j :: 0 <= i < j < |log| && Opens(log, i) && Opens(log, j) ==>
      log[i].hit.at + cfg.Window() <= log[j].hit.at
  }

  /** What every command keeps about the windows: a key lives at least a window from its opening. */
  ghost predicate WindowInv(cfg: Config, now: int, slot: Slot<nat>, log: seq<Logged>) {
    && Climbing(log)
    && Timely(log, now)
    && Spaced(cfg, log)
    && (Live(slot, now) ==> |log| > 0 && slot.value.value == log[|log| - 1].hit.count)
    && (slot.Some? && slot.value.expiry.Some? ==> WindowsOver(cfg, log, slot.value.expiry.value))
    && (slot.None? ==> WindowsOver(cfg, log, now))
  }

  /** What a call remembers of its INCR is in the log, and an unblocked answer is within the limit. */
  ghost predicate CallInv(cfg: Config, id: nat, pc: Pc, log: seq<Logged>) {
    && (pc.HitOf().Some? ==> Logged(id, pc.HitOf().value) in log)
    && (pc.Done? ==> (!pc.record.isBlocked <==> pc.served.Some? && pc.served.value.count <= cfg.limit))
  }

  ghost predicate Inv(cfg: Config, s: Sys) {
    && WindowInv(cfg, s.now, s.keys.hit, s.log)
    && (forall id :: id in s.calls ==> CallInv(cfg, id, s.calls[id], s.log))
  }

  lemma {:induction false} Positive(log: seq<Logged>, i: nat)
    requires Climbing(log) && i < |log|
    ensures log[i].hit.count >= 1
  {
    assert Climbs(log, i);
    if i > 0 {
      Positive(log, i - 1);
    }
  }

  lemma IncrKeepsWindows(cfg: Config, now: int, slot: Slot<nat>, log: seq<Logged>, id: nat)
    requires WindowInv(cfg, now, slot, log)
    ensures
      var slot' := Incr(slot, now);
      WindowInv(cfg, now, slot', log + [Logged(id, Hit(now, slot'.value.value))])
  {
    var log' := log + [Logged(id, Hit(now, Incr(slot, now).value.value))];
    forall i: nat | i < |log'|
      ensures Climbs(log', i)
    {
      assert i < |log| ==> Climbs(log, i);
    }
    if Live(slot, now) {
      Positive(log, |log| - 1);
    } else {
      assert WindowsOver(cfg, log, now);
    }
  }

  lemma PexpireKeepsWindows(cfg: Config, now: int, slot: Slot<nat>, log: seq<Logged>)
    requires WindowInv(cfg, now, slot, log)
    ensures WindowInv(cfg, now, Pexpire(slot, now, cfg.Window()), log)
  {
  }

  lemma StepKeepsInv(cfg: Config, s: Sys, e: Event)
    requires Inv(cfg, s)
    ensures Inv(cfg, Step(cfg, s, e))
  {
    match e
    case Tick(ms) =>
    case Run(id) =>
      var pc := PcOf(s, id);
      if pc.Unblocked? {
        IncrKeepsWindows(cfg, s.now, s.keys.hit, s.log, id);
      } else if pc.Untimed? {
        PexpireKeepsWindows(cfg, s.now, s.keys.hit, s.log);
      }
  }

  lemma {:induction false} RunKeepsInv(cfg: Config, now: int, events: seq<Event>)
    ensures Inv(cfg, Steps(cfg, Init(now), events))
  {
    if events != [] {
      RunKeepsInv(cfg, now, events[..|events| - 1]);
      StepKeepsInv(cfg, Steps(cfg, Init(now), events[..|events| - 1]), events[|events| - 1]);
    }
  }

  // ---------------------------------------------------------------- at most 2 * limit - 1 per window

  lemma {:induction false} Climb(log: seq<Logged>, i: nat, j: nat)
    requires Climbing(log) && i <= j < |log|
    requires forall k :: i < k <= j ==> !Opens(log, k)
    ensures log[j].hit.count == log[i].hit.count + (j - i)
  {
    if i < j {
      Climb(log, i, j - 1);
      assert Climbs(log, j) && !Opens(log, j);
    }
  }

  function AllowedHits(cfg: Config, log: seq<Logged>, t: int): set<nat> {
    set i: nat | i < |log| && IsAllowed(cfg, Some(log[i].hit), t)
  }

  /** Two allowed hits of one interval on the same side of its only opening have different counts. */
  lemma CountsDiffer(cfg: Config, log: seq<Logged>, now: int, t: int, i: nat, j: nat, b: nat)
    requires Climbing(log) && Timely(log, now) && Spaced(cfg, log)
    requires i < j < |log| && IsAllowed(cfg, Some(log[i].hit), t) && IsAllowed(cfg, Some(log[j].hit), t)
    requires b < |log| ==> Opens(log, b) && IsAllowed(cfg, Some(log[b].hit), t)
    requires b >= |log| ==> forall k :: i < k <= j ==> !Opens(log, k)
    requires j < b || b <= i
    ensures log[i].hit.count < log[j].hit.count
  {
    forall k | i < k <= j
      ensures !Opens(log, k)
    {
      assert log[i].hit.at <= log[k].hit.at <= log[j].hit.at;
      if b < |log| && Opens(log, k) {
        assert false;
      }
    }
    Climb(log, i, j);
  }

  lemma HitBound(cfg: Config, log: seq<Logged>, now: int, t: int)
    requires Climbing(log) && Timely(log, now) && Spaced(cfg, log) && cfg.limit > 0
    ensures |AllowedHits(cfg, log, t)| <= 2 * cfg.limit - 1
  {
    var hits := AllowedHits(cfg, log, t);
    var b := if exists k :: k in hits && Opens(log, k)
      then var k :| k in hits && Opens(log, k); k
      else |log|;
    // Before the opening the counts are at least 2, from it on at least 1.
    var code := (i: nat) => if i >= |log| then 0 else
      if i < b then log[i].hit.count - 2 else cfg.limit - 1 + log[i].hit.count - 1;
    forall i | i in hits
      ensures 0 <= code(i) < 2 * cfg.limit - 1
    {
      if i < b && Opens(log, i) {
        assert false;
      }
      Positive(log, i);
    }
    forall i, j | i in hits && j in hits && code(i) == code(j)
      ensures i == j
    {
      Positive(log, i);
      Positive(log, j);
      if i < j && (j < b || b <= i) {
        CountsDiffer(cfg, log, now, t, i, j, b);
      } else if j < i && (i < b || b <= j) {
        CountsDiffer(cfg, log, now, t, j, i, b);
      }
    }
    InjectionBound<nat>(hits, code, 2 * cfg.limit - 1);
  }

  /** Whatever the calls do and wherever they die, at most `2 * limit - 1` of the INCRs in any
      interval of one window length are let through; and a finished call went unblocked exactly when
      its own INCR was within the limit, so the bound counts every request that was served. */
  lemma WindowBound(cfg: Config, now: int, events: seq<Event>, t: int)
    ensures
      var s := Steps(cfg, Init(now), events);
      && |AllowedCalls(cfg, s, t)| <= (if cfg.limit == 0 then 0 else 2 * cfg.limit - 1)
      && (forall id :: id in s.calls && s.calls[id].Done? ==>
            (!s.calls[id].record.isBlocked <==>
               s.calls[id].served.Some? && s.calls[id].served.value.count <= cfg.limit))
  {
    RunKeepsInv(cfg, now, events);
    var s := Steps(cfg, Init(now), events);
    var hits := AllowedHits(cfg, s.log, t);
    var owner := (i: nat) => if i < |s.log| then s.log[i].id else 0;
    forall id | id in AllowedCalls(cfg, s, t)
      ensures exists i :: i in hits && owner(i) == id
    {
      assert CallInv(cfg, id, s.calls[id], s.log);
      var i: nat :| i < |s.log| && s.log[i] == Logged(id, s.calls[id].HitOf().value);
      assert i in hits && owner(i) == id;
    }
    ImageBound<nat, nat>(hits, AllowedCalls(cfg, s, t), owner);
    if cfg.limit > 0 {
      HitBound(cfg, s.log, s.now, t);
    } else if i :| i in hits {
      Positive(s.log, i);
    }
  }

  // ---------------------------------------------------------------- the bound is reached

  /** The next `n` commands of one call, without interference. */
  function RunFor(cfg: Config, s: Sys, id: nat, n: nat): Sys {
    if n == 0 then s else Step(cfg, RunFor(cfg, s, id, n - 1), Run(id))
  }

  /** `k` calls one after the other, with consecutive ids and `n` commands each. */
  function Burst(cfg: Config, s: Sys, first: nat, k: nat, n: nat): Sys {
    if k == 0 then s else RunFor(cfg, Burst(cfg, s, first, k - 1, n), first + k - 1, n)
  }

  lemma StepsSnoc(cfg: Config, s: Sys, xs: seq<Event>, e: Event)
    ensures Steps(cfg, s, xs + [e]) == Step(cfg, Steps(cfg, s, xs), e)
  {
    assert (xs + [e])[..|xs|] == xs;
  }

  lemma OneMoreRun(cfg: Config, s: Sys, ys: seq<Event>, mid: Sys, id: nat, n: nat)
    requires n > 0 && Steps(cfg, s, ys) == RunFor(cfg, mid, id, n - 1)
    ensures Steps(cfg, s, ys + [Run(id)]) == RunFor(cfg, mid, id, n)
  {
    StepsSnoc(cfg, s, ys, Run(id));
  }

  lemma {:induction false} RunForIsARun(cfg: Config, s: Sys, xs: seq<Event>, mid: Sys, id: nat, n: nat)
    returns (zs: seq<Event>)
    requires Steps(cfg, s, xs) == mid
    ensures Steps(cfg, s, zs) == RunFor(cfg, mid, id, n)
  {
    zs := xs;
    if n > 0 {
      var ys := RunForIsARun(cfg, s, xs, mid, id, n - 1);
      OneMoreRun(cfg, s, ys, mid, id, n);
      zs := ys + [Run(id)];
    }
  }

  lemma {:induction false} BurstIsARun(cfg: Config, s: Sys, xs: seq<Event>, mid: Sys, first: nat, k: nat, n: nat)
    returns (zs: seq<Event>)
    requires Steps(cfg, s, xs) == mid
    ensures Steps(cfg, s, zs) == Burst(cfg, mid, first, k, n)
  {
    zs := xs;
    if k > 0 {
      var ys := BurstIsARun(cfg, s, xs, mid, first, k - 1, n);
      zs := RunForIsARun(cfg, s, ys, Burst(cfg, mid, first, k - 1, n), first + k - 1, n);
    }
  }

  function CountNow(s: Sys): nat {
    if Live(s.keys.hit, s.now) then s.keys.hit.value.value else 0
  }

  /** Nothing is blocked, a live window has its expiry, and `k` more hits are within the limit. */
  ghost predicate Ready(cfg: Config, s: Sys, k: nat) {
    && cfg.ttl > 0
    && !Live(s.keys.block, s.now)
    && (Live(s.keys.hit, s.now) ==> s.keys.hit.value.expiry.Some?)
    && CountNow(s) + k <= cfg.limit
  }

  /** The state after `k > 0` whole calls on a ready state: the window they belong to. */
  ghost predicate Served(cfg: Config, s: Sys, s': Sys, k: nat) {
    && s'.now == s.now
    && s'.keys.block == s.keys.block
    && s'.keys.hit == Some(Entry(CountNow(s) + k, if Live(s.keys.hit, s.now) then s.keys.hit.value.expiry
                                                  else Some(s.now + cfg.Window())))
  }

  ghost predicate CallRan(cfg: Config, s: Sys, s': Sys, id: nat) {
    && Served(cfg, s, s', 1)
    && s'.calls.Keys == s.calls.Keys + {id}
    && s'.calls[id].HitOf() == Some(Hit(s.now, CountNow(s) + 1))
    && (forall k :: k in s.calls ==> k == id || s'.calls[k] == s.calls[k])
  }

  /** Five commands take a call from its start to its answer. Their number is the parameter `n`, so that a
      proof unfolds them only where it counts them. */
  lemma WholeCallRuns(cfg: Config, s: Sys, id: nat, n: nat)
    requires id !in s.calls && Ready(cfg, s, 1) && n == 5
    ensures CallRan(cfg, s, RunFor(cfg, s, id, n), id)
  {
    var s1 := Step(cfg, s, Run(id));
    var s2 := Step(cfg, s1, Run(id));
    var s3 := Step(cfg, s2, Run(id));
    assert RunFor(cfg, s, id, 0) == s;
    assert RunFor(cfg, s, id, 1) == s1;
    assert RunFor(cfg, s, id, 2) == s2;
    assert RunFor(cfg, s, id, 3) == s3;
    assert CallRan(cfg, s, Step(cfg, Step(cfg, s3, Run(id)), Run(id)), id);
  }

  /** The calls `first..first + k` all hit at `s.now`, counting on from where `s` stood. */
  ghost predicate HitsInTurn(s: Sys, s': Sys, first: nat, k: nat) {
    && (forall id :: id in s'.calls ==> id < first + k)
    && (forall id :: id in s.calls ==> id in s'.calls && s'.calls[id] == s.calls[id])
    && (forall id :: first <= id < first + k ==>
          id in s'.calls && s'.calls[id].HitOf() == Some(Hit(s.now, CountNow(s) + (id - first) + 1)))
  }

  lemma ServedAgain(cfg: Config, s: Sys, mid: Sys, k: nat)
    requires Ready(cfg, s, k + 1)
    requires if k == 0 then mid == s else Served(cfg, s, mid, k)
    ensures Ready(cfg, mid, 1) && CountNow(mid) == CountNow(s) + k
    ensures forall s' :: Served(cfg, mid, s', 1) ==> Served(cfg, s, s', k + 1)
  {
  }

  ghost predicate BurstRan(cfg: Config, s: Sys, s': Sys, first: nat, k: nat) {
    && HitsInTurn(s, s', first, k)
    && if k == 0 then s' == s else Served(cfg, s, s', k)
  }

  lemma BurstGrows(cfg: Config, s: Sys, mid: Sys, s': Sys, first: nat, k: nat)
    requires Ready(cfg, s, k + 1) && BurstRan(cfg, s, mid, first, k)
    requires CallRan(cfg, mid, s', first + k)
    ensures BurstRan(cfg, s, s', first, k + 1)
  {
    ServedAgain(cfg, s, mid, k);
  }

  lemma {:induction false} BurstRuns(cfg: Config, s: Sys, first: nat, k: nat, n: nat)
    requires Ready(cfg, s, k) && n == 5
    requires forall id :: id in s.calls ==> id < first
    ensures BurstRan(cfg, s, Burst(cfg, s, first, k, n), first, k)
  {
    if k > 0 {
      var j := k - 1;
      var mid := Burst(cfg, s, first, j, n);
      BurstRuns(cfg, s, first, j, n);
      ServedAgain(cfg, s, mid, j);
      WholeCallRuns(cfg, mid, first + j, n);
      BurstGrows(cfg, s, mid, RunFor(cfg, mid, first + j, n), first, j);
    }
  }

  /** For every limit and window the bound is met with equality: one hit opens a window, the rest of
      its quota comes in the last millisecond, and a whole new quota right after it. */
  lemma WindowBoundReached(cfg: Config, now: int) returns (events: seq<Event>, t: int)
    requires cfg.limit > 0 && cfg.ttl > 0
    ensures |AllowedCalls(cfg, Steps(cfg, Init(now), events), t)| == 2 * cfg.limit - 1
  {
    var n := 5;
    var s0 := Init(now);
    var s1 := Burst(cfg, s0, 0, 1, n);
    var s2 := Later(s1, cfg.Window() - 1);
    var s3 := Burst(cfg, s2, 1, cfg.limit - 1, n);
    var s4 := Later(s3, 1);
    var s5 := Burst(cfg, s4, cfg.limit, cfg.limit, n);
    t := s2.now;
    events := ThreeBursts(cfg, s0, s1, s2, s3, s4, n);
    assert BurstRan(cfg, s0, s1, 0, 1) by {
      BurstRuns(cfg, s0, 0, 1, n);
    }
    assert BurstRan(cfg, s2, s3, 1, cfg.limit - 1) by {
      BurstRuns(cfg, s2, 1, cfg.limit - 1, n);
    }
    assert BurstRan(cfg, s4, s5, cfg.limit, cfg.limit) by {
      BurstRuns(cfg, s4, cfg.limit, cfg.limit, n);
    }
    LateQuotas(cfg, s1, s2, s3, s4, s5, t);
    WindowBound(cfg, now, events, t);
  }

  function Later(s: Sys, ms: nat): Sys {
    s.(now := s.now + ms)
  }

  lemma ThreeBursts(cfg: Config, s0: Sys, s1: Sys, s2: Sys, s3: Sys, s4: Sys, n: nat) returns (events: seq<Event>)
    requires cfg.limit > 0 && cfg.ttl > 0
    requires s1 == Burst(cfg, s0, 0, 1, n) && s2 == Later(s1, cfg.Window() - 1)
    requires s3 == Burst(cfg, s2, 1, cfg.limit - 1, n) && s4 == Later(s3, 1)
    ensures Steps(cfg, s0, events) == Burst(cfg, s4, cfg.limit, cfg.limit, n)
  {
    var x1 := BurstIsARun(cfg, s0, [], s0, 0, 1, n);
    StepsSnoc(cfg, s0, x1, Tick(cfg.Window() - 1));
    var x3 := BurstIsARun(cfg, s0, x1 + [Tick(cfg.Window() - 1)], s2, 1, cfg.limit - 1, n);
    StepsSnoc(cfg, s0, x3, Tick(1));
    events := BurstIsARun(cfg, s0, x3 + [Tick(1)], s4, cfg.limit, cfg.limit, n);
  }

  lemma LateQuotas(cfg: Config, s1: Sys, s2: Sys, s3: Sys, s4: Sys, s5: Sys, t: int)
    requires cfg.limit > 0 && cfg.ttl > 0
    requires s2 == s1.(now := t) && CountNow(s2) == 1
    requires HitsInTurn(s2, s3, 1, cfg.limit - 1)
    requires s4 == s3.(now := t + 1) && CountNow(s4) == 0
    requires HitsInTurn(s4, s5, cfg.limit, cfg.limit)
    ensures |AllowedCalls(cfg, s5, t)| >= 2 * cfg.limit - 1
  {
    var allowed := AllowedCalls(cfg, s5, t);
    forall id | id in Range(1, 2 * cfg.limit)
      ensures exists k: nat :: k in allowed && k == id
    {
      if id < cfg.limit {
        assert id in s3.calls && s5.calls[id] == s3.calls[id];
      } else {
        assert id in s5.calls;
      }
      assert id in allowed;
    }
    ImageBound<nat, int>(allowed, Range(1, 2 * cfg.limit), (id: nat) => id);
  }

  // ---------------------------------------------------------------- one call at a time

  /** How long a call takes before each of its commands. */
  datatype Waits = Waits(blockTtl: nat, incr: nat, hitTtl: nat, expire: nat, answer: nat) {
    function Total(): nat { blockTtl + incr + hitTtl + expire + answer }

    function Before(pc: Pc): nat {
      match pc
      case Start => blockTtl
      case Unblocked => incr
      case Counted(_) => hitTtl
      case Untimed(_) => expire
      case Timed(_, _) => answer
      case Done(_, _) => 0
    }
  }

  function CommandsLeft(pc: Pc): nat {
    match pc
    case Start => 5
    case Unblocked => 4
    case Counted(_) => 3
    case Untimed(_) => 2
    case Timed(_, _) => 1
    case Done(_, _) => 0
  }

  datatype Outcome = Outcome(pc: Pc, keys: Keys, now: int)

  /** A call taken to its end with no other call in between. */
  function Finish(cfg: Config, pc: Pc, keys: Keys, now: int, w: Waits): (r: Outcome)
    ensures r.pc.Done?
    decreases CommandsLeft(pc)
  {
    if pc.Done? then Outcome(pc, keys, now)
    else
      var t := now + w.Before(pc);
      var (pc', keys') := Advance(cfg, pc, keys, t);
      Finish(cfg, pc', keys', t, w)
  }

  /** A wait and a command in the interleaved system are one round of `Finish`. */
  lemma WaitAndRun(cfg: Config, s: Sys, id: nat, w: Waits)
    requires !PcOf(s, id).Done?
    ensures
      var end := Step(cfg, Step(cfg, s, Tick(w.Before(PcOf(s, id)))), Run(id));
      && CommandsLeft(PcOf(end, id)) < CommandsLeft(PcOf(s, id))
      && Finish(cfg, PcOf(s, id), s.keys, s.now, w) == Finish(cfg, PcOf(end, id), end.keys, end.now, w)
  {
  }

  /** Such a call is one of the schedules of the interleaved system. */
  lemma {:induction false} FinishIsARun(cfg: Config, s: Sys, xs: seq<Event>, id: nat, w: Waits) returns (zs: seq<Event>)
    ensures
      var mid := Steps(cfg, s, xs);
      var end := Steps(cfg, s, zs);
      var o := Finish(cfg, PcOf(mid, id), mid.keys, mid.now, w);
      end.keys == o.keys && end.now == o.now && PcOf(end, id) == o.pc
    decreases CommandsLeft(PcOf(Steps(cfg, s, xs), id))
  {
    var mid := Steps(cfg, s, xs);
    if PcOf(mid, id).Done? {
      zs := xs;
    } else {
      var tick := Tick(w.Before(PcOf(mid, id)));
      var ys := xs + [tick] + [Run(id)];
      StepsSnoc(cfg, s, xs, tick);
      StepsSnoc(cfg, s, xs + [tick], Run(id));
      WaitAndRun(cfg, mid, id, w);
      zs := FinishIsARun(cfg, s, ys, id, w);
    }
  }

  /** The hit key's window after one INCR, with its time to live read and repaired. */
  datatype Counting = Counting(slot: Slot<nat>, hit: Hit, ttlMs: int, now: int)

  function CountHit(cfg: Config, before: Slot<nat>, now: int, w: Waits): Counting {
    var hitAt := now + w.incr;
    var slot := Incr(before, hitAt);
    var hit := Hit(hitAt, slot.value.value);
    var t := hitAt + w.hitTtl;
    var left := Pttl(slot, t);
    if left <= 0
    then Counting(Pexpire(slot, t + w.expire, cfg.Window()), hit, cfg.Window(), t + w.expire)
    else Counting(slot, hit, left, t)
  }

  /** What a call that passes the block check leaves behind, in one expression. */
  function CountedOutcome(cfg: Config, keys: Keys, now: int, w: Waits): Outcome {
    var c := CountHit(cfg, keys.hit, now + w.blockTtl, w);
    Answer(cfg, c.hit, c.ttlMs, keys.(hit := c.slot), c.now + w.answer)
  }

  function Answer(cfg: Config, hit: Hit, ttlMs: int, keys: Keys, now: int): Outcome {
    var (pc, keys') := Advance(cfg, Timed(hit, ttlMs), keys, now);
    Outcome(pc, keys', now)
  }

  lemma FinishUnfolds(cfg: Config, keys: Keys, now: int, w: Waits)
    ensures
      var left := Pttl(keys.block, now + w.blockTtl);
      Finish(cfg, Start, keys, now, w) ==
      if left > 0 then Outcome(Done(BlockedRecord(cfg, left), None), keys, now + w.blockTtl)
      else CountedOutcome(cfg, keys, now, w)
  {
    if Pttl(keys.block, now + w.blockTtl) <= 0 {
      FinishFromUnblocked(cfg, keys, now + w.blockTtl, w);
    }
  }

  lemma FinishFromUnblocked(cfg: Config, keys: Keys, now: int, w: Waits)
    ensures Finish(cfg, Unblocked, keys, now, w) == CountedOutcome(cfg, keys, now - w.blockTtl, w)
  {
    var t1 := now + w.incr;
    var (pc1, keys1) := Advance(cfg, Unblocked, keys, t1);
    var t2 := t1 + w.hitTtl;
    var (pc2, keys2) := Advance(cfg, pc1, keys1, t2);
    assert Finish(cfg, pc1, keys1, t1, w) == Finish(cfg, pc2, keys2, t2, w);
    if pc2.Untimed? {
      var (pc3, keys3) := Advance(cfg, pc2, keys2, t2 + w.expire);
      assert Finish(cfg, pc2, keys2, t2, w) == Finish(cfg, pc3, keys3, t2 + w.expire, w);
      FinishFromTimed(cfg, pc3, keys3, t2 + w.expire, w);
    } else {
      FinishFromTimed(cfg, pc2, keys2, t2, w);
    }
  }

  lemma FinishFromTimed(cfg: Config, pc: Pc, keys: Keys, now: int, w: Waits)
    requires pc.Timed?
    ensures Finish(cfg, pc, keys, now, w) == Answer(cfg, pc.hit, pc.ttlMs, keys, now + w.answer)
  {
  }

  /** A number of milliseconds lies within the last of its rounded-up seconds. */
  predicate RoundsUpTo(ms: int, seconds: int) {
    (seconds - 1) * 1000 < ms <= seconds * 1000
  }

  /** An answer tells what the keys hold: a block that is already on is reported with what is left of it
      and nothing is touched; a hit is counted on from a live window or starts one, is blocked exactly when
      its count is over the limit, and reports what its window had left when it was read or repaired, and a
      block exactly as long as the one it has just set. */
  lemma AnswerReportsKeys(cfg: Config, keys: Keys, now: int, w: Waits)
    ensures
      var o := Finish(cfg, Start, keys, now, w);
      var r := o.pc.record;
      && (o.pc.served.None? <==> Live(keys.block, now + w.blockTtl) && keys.block.value.expiry.Some?)
      && (o.pc.served.None? ==>
            && o.keys == keys && r.isBlocked && Live(keys.block, o.now) && keys.block.value.expiry.Some?
            && r.totalHits == cfg.limit + 1 && r.timeToExpire == r.timeToBlockExpire
            && RoundsUpTo(keys.block.value.expiry.value - o.now, r.timeToBlockExpire))
      && (o.pc.served.Some? ==>
            && r.totalHits == (if Live(keys.hit, now + w.blockTtl + w.incr) then keys.hit.value.value + 1 else 1)
            && (r.isBlocked <==> r.totalHits > cfg.limit))
      && (o.pc.served.Some? && Live(o.keys.hit, o.now) ==>
            && o.keys.hit.value.value == r.totalHits && o.keys.hit.value.expiry.Some?
            && RoundsUpTo(o.keys.hit.value.expiry.value - (o.now - w.answer), r.timeToExpire))
      && (!r.isBlocked ==> o.keys.block == keys.block && r.timeToBlockExpire == 0)
      && (o.pc.served.Some? && r.isBlocked ==>
            && r.timeToBlockExpire == cfg.blockDuration
            && o.keys.block == if cfg.blockDuration == 0 then keys.block
                               else Some(Entry(1, Some(o.now + r.timeToBlockExpire * 1000))))
  {
    FinishUnfolds(cfg, keys, now, w);
  }

  /** A window lasts its ttl, in thousands of milliseconds, from its first PEXPIRE: a hit that opens one, or
      finds one without an expiry, sets it, and a hit on one with an expiry leaves that alone. */
  lemma WindowsLastTheirTtl(cfg: Config, keys: Keys, now: int, w: Waits)
    requires cfg.ttl > 0
    ensures
      var o := Finish(cfg, Start, keys, now, w);
      var hitAt := now + w.blockTtl + w.incr;
      var end := hitAt + w.hitTtl + w.expire + cfg.ttl * 1000;
      o.pc.served.Some? ==>
        o.keys.hit == if !Live(keys.hit, hitAt) then Some(Entry(1, Some(end)))
                      else if keys.hit.value.expiry.None? then Some(Entry(keys.hit.value.value + 1, Some(end)))
                      else Some(Entry(keys.hit.value.value + 1, keys.hit.value.expiry))
  {
    FinishUnfolds(cfg, keys, now, w);
  }

  function HitKey(throttlerName: string, key: string): string {
    "throttle:" + throttlerName + ":" + key
  }

  function BlockKey(throttlerName: string, key: string): string {
    "throttle-block:" + throttlerName + ":" + key
  }

  /** No hit counter is ever some client's block key. */
  lemma HitKeyIsNoBlockKey(n1: string, k1: string, n2: string, k2: string)
    ensures HitKey(n1, k1) != BlockKey(n2, k2)
  {
    assert HitKey(n1, k1)[8] == ':';
    assert BlockKey(n2, k2)[8] == '-';
  }

  lemma PrefixedKeys(prefix: string, n1: string, k1: string, n2: string, k2: string)
    ensures n1 == n2 && prefix + n1 + ":" + k1 == prefix + n2 + ":" + k2 ==> k1 == k2
    ensures ':' !in n1 && ':' !in n2 && prefix + n1 + ":" + k1 == prefix + n2 + ":" + k2 ==> n1 == n2 && k1 == k2
  {
    var a, b := prefix + n1 + ":" + k1, prefix + n2 + ":" + k2;
    assert a[|prefix|..] == n1 + ":" + k1 && b[|prefix|..] == n2 + ":" + k2;
    assert a[|prefix + n1 + ":"|..] == k1 && b[|prefix + n2 + ":"|..] == k2;
    if ':' !in n1 && ':' !in n2 && a == b {
      SeparatorSplits(n1, k1, n2, k2, ':');
    }
  }

  /** Under one throttler, two clients share neither a hit counter nor a block. */
  lemma KeysTellClientsApart(throttlerName: string, k1: string, k2: string)
    requires k1 != k2
    ensures HitKey(throttlerName, k1) != HitKey(throttlerName, k2)
    ensures BlockKey(throttlerName, k1) != BlockKey(throttlerName, k2)
  {
    PrefixedKeys("throttle:", throttlerName, k1, throttlerName, k2);
    PrefixedKeys("throttle-block:", throttlerName, k1, throttlerName, k2);
  }

  /** Nor do clients of different throttlers, if the names of those have no colon. */
  lemma KeysIdentify(n1: string, k1: string, n2: string, k2: string)
    requires ':' !in n1 && ':' !in n2
    ensures HitKey(n1, k1) == HitKey(n2, k2) <==> n1 == n2 && k1 == k2
    ensures BlockKey(n1, k1) == BlockKey(n2, k2) <==> n1 == n2 && k1 == k2
  {
    PrefixedKeys("throttle:", n1, k1, n2, k2);
    PrefixedKeys("throttle-block:", n1, k1, n2, k2);
  }

  class RedisThrottlerStorage {
    const backend: CounterBackend

    constructor (backend: CounterBackend)
      ensures this.backend == backend
    {
      this.backend := backend;
    }

    function KeysOf(hitKey: string, blockKey: string): Keys
      reads backend
    {
      Keys(At(backend.counters, hitKey), At(backend.counters, blockKey))
    }

    /** One call, command by command, on the keys of one client; all other keys are untouched. */
    method Increment(key: string, cfg: Config, throttlerName: string, w: Waits) returns (r: Record)
      modifies backend
      ensures
        var hitKey, blockKey := HitKey(throttlerName, key), BlockKey(throttlerName, key);
        var o := Finish(cfg, Start, old(KeysOf(hitKey, blockKey)), old(backend.now), w);
        && r == o.pc.record && KeysOf(hitKey, blockKey) == o.keys && backend.now == o.now
        && (forall k :: k != hitKey && k != blockKey ==> At(backend.counters, k) == old(At(backend.counters, k)))
      ensures forall other :: other != key ==> ClientKeys(throttlerName, other) == old(ClientKeys(throttlerName, other))
      ensures ':' !in throttlerName ==>
                forall name, other :: ':' !in name && name != throttlerName ==>
                  ClientKeys(name, other) == old(ClientKeys(name, other))
    {
      var hitKey, blockKey := HitKey(throttlerName, key), BlockKey(throttlerName, key);
      HitKeyIsNoBlockKey(throttlerName, key, throttlerName, key);
      r := IncrementKeys(hitKey, blockKey, cfg, w);
      OthersUntouched(throttlerName, key);
    }

    /** The two keys of one client. */
    function ClientKeys(throttlerName: string, key: string): Keys
      reads backend
    {
      KeysOf(HitKey(throttlerName, key), BlockKey(throttlerName, key))
    }

    /** A client's keys are not among those of any other client. */
    static lemma OthersUntouched(throttlerName: string, key: string)
      ensures forall name, other ::
                (name == throttlerName && other != key)
                || (':' !in name && ':' !in throttlerName && name != throttlerName) ==>
                  && HitKey(name, other) != HitKey(throttlerName, key)
                  && HitKey(name, other) != BlockKey(throttlerName, key)
                  && BlockKey(name, other) != HitKey(throttlerName, key)
                  && BlockKey(name, other) != BlockKey(throttlerName, key)
    {
      forall name, other | (name == throttlerName && other != key)
                           || (':' !in name && ':' !in throttlerName && name != throttlerName)
        ensures HitKey(name, other) != HitKey(throttlerName, key)
        ensures HitKey(name, other) != BlockKey(throttlerName, key)
        ensures BlockKey(name, other) != HitKey(throttlerName, key)
        ensures BlockKey(name, other) != BlockKey(throttlerName, key)
      {
        HitKeyIsNoBlockKey(name, other, throttlerName, key);
        HitKeyIsNoBlockKey(throttlerName, key, name, other);
        if name == throttlerName {
          KeysTellClientsApart(name, other, key);
        } else {
          KeysIdentify(name, other, throttlerName, key);
        }
      }
    }

    method CountKey(hitKey: string, cfg: Config, w: Waits) returns (totalHits: nat, ttlMs: int)
      modifies backend
      ensures
        var c := CountHit(cfg, old(At(backend.counters, hitKey)), old(backend.now), w);
        && totalHits == c.hit.count && ttlMs == c.ttlMs
        && At(backend.counters, hitKey) == c.slot && backend.now == c.now
      ensures forall k :: k != hitKey ==> At(backend.counters, k) == old(At(backend.counters, k))
    {
      backend.Elapse(w.incr);
      totalHits := backend.IncrKey(hitKey);
      backend.Elapse(w.hitTtl);
      ttlMs := backend.PttlKey(hitKey);
      if ttlMs <= 0 {
        backend.Elapse(w.expire);
        backend.PexpireKey(hitKey, cfg.ttl * 1000);
        ttlMs := cfg.ttl * 1000;
      }
    }

    method IncrementKeys(hitKey: string, blockKey: string, cfg: Config, w: Waits) returns (r: Record)
      requires hitKey != blockKey
      modifies backend
      ensures
        var o := Finish(cfg, Start, old(KeysOf(hitKey, blockKey)), old(backend.now), w);
        r == o.pc.record && KeysOf(hitKey, blockKey) == o.keys && backend.now == o.now
      ensures forall k :: k != hitKey && k != blockKey ==> At(backend.counters, k) == old(At(backend.counters, k))
    {
      FinishUnfolds(cfg, KeysOf(hitKey, blockKey), backend.now, w);
      backend.Elapse(w.blockTtl);
      var blockedTtlMs := backend.PttlKey(blockKey);
      if blockedTtlMs > 0 {
        return Record(cfg.limit + 1, CeilSeconds(blockedTtlMs), true, CeilSeconds(blockedTtlMs));
      }

      var totalHits, ttlMs := CountKey(hitKey, cfg, w);
      backend.Elapse(w.answer);
      var isBlocked := totalHits > cfg.limit;
      if isBlocked && cfg.blockDuration > 0 {
        backend.PsetOne(blockKey, cfg.blockDuration * 1000);
      }
      r := Record(totalHits, CeilSeconds(ttlMs), isBlocked, if isBlocked then cfg.blockDuration else 0);
    }
  }

  // ---------------------------------------------------------------- bounded recovery

  /** A call that arrives `gap` ms after the previous one was answered. */
  datatype Visit = Visit(gap: nat, waits: Waits)

  /** An answered call: when it arrived, its answer, and its INCR if it got that far. */
  datatype Answered = Answered(arrival: int, record: Record, hit: Option<Hit>)

  datatype Session = Session(now: int, keys: Keys, answered: seq<Answered>)

  function Serve(cfg: Config, s: Session, v: Visit): Session {
    var arrival := s.now + v.gap;
    var o := Finish(cfg, Start, s.keys, arrival, v.waits);
    Session(o.now, o.keys, s.answered + [Answered(arrival, o.pc.record, o.pc.served)])
  }

  function ServeAll(cfg: Config, now: int, visits: seq<Visit>): Session {
    if visits == [] then Session(now, Keys(None, None), [])
    else Serve(cfg, ServeAll(cfg, now, visits[..|visits| - 1]), visits[|visits| - 1])
  }

  predicate OpensWindow(a: Answered) {
    a.hit.Some? && a.hit.value.count == 1
  }

  /** The most recent call that opened a window, or -1. */
  function LastOpening(answered: seq<Answered>): (o: int)
    ensures -1 <= o < |answered|
    ensures o >= 0 ==> OpensWindow(answered[o])
    ensures forall i :: o < i < |answered| ==> !OpensWindow(answered[i])
  {
    if answered == [] then -1
    else if OpensWindow(answered[|answered| - 1]) then |answered| - 1
    else LastOpening(answered[..|answered| - 1])
  }

  /** When the last window was opened. */
  function OpenedAt(answered: seq<Answered>): int
    requires LastOpening(answered) >= 0
  {
    answered[LastOpening(answered)].hit.value.at
  }

  /** Between calls that each take at most `d` ms, both keys end in bounded time after the opening. */
  ghost predicate Bounded(cfg: Config, d: nat, s: Session) {
    && (Live(s.keys.hit, s.now) ==>
          && LastOpening(s.answered) >= 0
          && s.keys.hit.value.value >= 1
          && s.keys.hit.value.expiry.Some?
          && s.keys.hit.value.expiry.value <= OpenedAt(s.answered) + d + cfg.Window())
    && (Live(s.keys.block, s.now) ==>
          && LastOpening(s.answered) >= 0
          && s.keys.block.value.expiry.Some?
          && s.keys.block.value.expiry.value <= OpenedAt(s.answered) + 2 * d + cfg.Window() + cfg.Block())
  }

  lemma LastOpeningSnoc(answered: seq<Answered>, a: Answered)
    ensures LastOpening(answered + [a]) == if OpensWindow(a) then |answered| else LastOpening(answered)
  {
    assert (answered + [a])[..|answered|] == answered;
  }

  /** A hit on a live window leaves its expiry alone. */
  lemma CountedInWindow(cfg: Config, keys: Keys, now: int, w: Waits)
    requires Live(keys.hit, now + w.blockTtl + w.incr) && keys.hit.value.expiry.Some?
    ensures
      var o := CountedOutcome(cfg, keys, now, w);
      var count := keys.hit.value.value + 1;
      && o.keys.hit == Some(keys.hit.value.(value := count))
      && o.pc.served == Some(Hit(now + w.blockTtl + w.incr, count))
      && (o.pc.record.isBlocked <==> count > cfg.limit)
      && (o.keys.block == keys.block || o.keys.block == Some(Entry(1, Some(o.now + cfg.Block()))))
      && now <= o.now <= now + w.Total()
  {
  }

  /** A hit on a dead window opens a new one, with an expiry unless the window has no length. */
  lemma CountedOpens(cfg: Config, keys: Keys, now: int, w: Waits)
    requires cfg.limit > 0 && !Live(keys.hit, now + w.blockTtl + w.incr)
    ensures
      var o := CountedOutcome(cfg, keys, now, w);
      var hitAt := now + w.blockTtl + w.incr;
      && (o.keys.hit.Some? ==>
            o.keys.hit.value.value == 1 && o.keys.hit.value.expiry.Some?
            && o.keys.hit.value.expiry.value <= hitAt + w.Total() + cfg.Window())
      && o.pc.served == Some(Hit(hitAt, 1))
      && !o.pc.record.isBlocked
      && o.keys.block == keys.block
      && now <= o.now
  {
  }

  lemma ServeKeepsBounded(cfg: Config, d: nat, s: Session, v: Visit)
    requires cfg.limit > 0 && v.waits.Total() <= d && Bounded(cfg, d, s)
    ensures Bounded(cfg, d, Serve(cfg, s, v))
    ensures
      var a := Serve(cfg, s, v).answered[|s.answered|];
      a.record.isBlocked ==>
        && !OpensWindow(a)
        && LastOpening(s.answered) >= 0
        && a.arrival < OpenedAt(s.answered) + cfg.Window() + cfg.Block() + 2 * d
  {
    var arrival := s.now + v.gap;
    var o := Finish(cfg, Start, s.keys, arrival, v.waits);
    var a := Answered(arrival, o.pc.record, o.pc.served);
    assert Serve(cfg, s, v) == Session(o.now, o.keys, s.answered + [a]);
    FinishUnfolds(cfg, s.keys, arrival, v.waits);
    LastOpeningSnoc(s.answered, a);
    if Pttl(s.keys.block, arrival + v.waits.blockTtl) <= 0 {
      if Live(s.keys.hit, arrival + v.waits.blockTtl + v.waits.incr) {
        CountedInWindow(cfg, s.keys, arrival, v.waits);
      } else {
        CountedOpens(cfg, s.keys, arrival, v.waits);
      }
    }
  }

  lemma {:induction false} ServeAllIsBounded(cfg: Config, d: nat, now: int, visits: seq<Visit>)
    requires cfg.limit > 0 && forall v :: v in visits ==> v.waits.Total() <= d
    ensures Bounded(cfg, d, ServeAll(cfg, now, visits))
    ensures |ServeAll(cfg, now, visits).answered| == |visits|
  {
    if visits != [] {
      ServeAllIsBounded(cfg, d, now, visits[..|visits| - 1]);
      ServeKeepsBounded(cfg, d, ServeAll(cfg, now, visits[..|visits| - 1]), visits[|visits| - 1]);
    }
  }

  lemma {:induction false} ServeAllPrefix(cfg: Config, now: int, visits: seq<Visit>, k: nat)
    requires k <= |visits|
    ensures |ServeAll(cfg, now, visits[..k]).answered| == k
    ensures ServeAll(cfg, now, visits[..k]).answered <= ServeAll(cfg, now, visits).answered
    ensures |ServeAll(cfg, now, visits).answered| == |visits|
    decreases |visits|
  {
    if k < |visits| {
      assert visits[..|visits| - 1][..k] == visits[..k];
      ServeAllPrefix(cfg, now, visits[..|visits| - 1], k);
    } else {
      assert visits[..k] == visits;
      if visits != [] {
        var n := |visits| - 1;
        assert visits[..n][..n] == visits[..n];
        ServeAllPrefix(cfg, now, visits[..n], n);
      }
    }
  }

  /** A refused call arrived before its window's opening plus window plus block plus twice the longest
      call: of the opening call's INCR-to-PEXPIRE delay and of the blocking call's INCR-to-SET delay. */
  lemma RefusedIsRecent(cfg: Config, d: nat, now: int, visits: seq<Visit>, k: nat)
    requires cfg.limit > 0 && forall v :: v in visits ==> v.waits.Total() <= d
    requires k < |visits|
    ensures
      var answered := ServeAll(cfg, now, visits).answered;
      |answered| == |visits| &&
      (answered[k].record.isBlocked ==>
         && !OpensWindow(answered[k])
         && LastOpening(answered[..k]) >= 0
         && answered[k].arrival < OpenedAt(answered[..k]) + cfg.Window() + cfg.Block() + 2 * d)
  {
    var s := ServeAll(cfg, now, visits[..k]);
    ServeAllIsBounded(cfg, d, now, visits[..k]);
    ServeAllPrefix(cfg, now, visits, k);
    ServeAllPrefix(cfg, now, visits, k + 1);
    assert visits[..k + 1][..k] == visits[..k];
    ServeKeepsBounded(cfg, d, s, visits[k]);
    var answered := ServeAll(cfg, now, visits).answered;
    assert ServeAll(cfg, now, visits[..k + 1]).answered[k] == answered[k];
    assert answered[..k] == s.answered;
  }

  lemma {:induction false} SameOpening(answered: seq<Answered>, i: nat, k: nat)
    requires i <= k <= |answered|
    requires forall j :: i <= j < k ==> !OpensWindow(answered[j])
    ensures LastOpening(answered[..k]) == LastOpening(answered[..i])
  {
    if i < k {
      SameOpening(answered, i, k - 1);
      assert answered[..k] == answered[..k - 1] + [answered[k - 1]];
      LastOpeningSnoc(answered[..k - 1], answered[k - 1]);
    }
  }

  /** Bounded recovery: every unbroken run `i..j` of refused calls lies within one window length plus
      one block length (plus twice the longest call) of the opening of the window it belongs to. */
  lemma RecoveryBound(cfg: Config, d: nat, now: int, visits: seq<Visit>, i: nat, j: nat)
    requires cfg.limit > 0 && forall v :: v in visits ==> v.waits.Total() <= d
    requires i < j <= |visits|
    ensures
      var answered := ServeAll(cfg, now, visits).answered;
      |answered| == |visits| &&
      ((forall k :: i <= k < j ==> answered[k].record.isBlocked) ==>
         && LastOpening(answered[..i]) >= 0
         && (forall k :: i <= k < j ==>
               answered[k].arrival < OpenedAt(answered[..i]) + (cfg.ttl + cfg.blockDuration) * 1000 + 2 * d))
  {
    var answered := ServeAll(cfg, now, visits).answered;
    RefusedIsRecent(cfg, d, now, visits, i);
    if forall k :: i <= k < j ==> answered[k].record.isBlocked {
      forall k | i <= k < j
        ensures !OpensWindow(answered[k]) && LastOpening(answered[..k]) >= 0
        ensures answered[k].arrival < OpenedAt(answered[..k]) + cfg.Window() + cfg.Block() + 2 * d
      {
        RefusedIsRecent(cfg, d, now, visits, k);
      }
      forall k | i <= k < j
        ensures OpenedAt(answered[..k]) == OpenedAt(answered[..i])
      {
        SameOpening(answered, i, k);
        assert answered[..k][LastOpening(answered[..i])] == answered[..i][LastOpening(answered[..i])];
      }
    }
  }
}
