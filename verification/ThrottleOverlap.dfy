/** Recovery of the rate limiter when calls overlap: in bounded time while none takes longer than `d` ms, and
    when exactly at all if calls die. */
module ThrottleOverlap {
  import opened Common
  import opened Redis
  import opened Throttle

  /** The interleaved system, with the history of when each call issued its first command. */
  datatype Clocked = Clocked(sys: Sys, started: map<nat, int>)

  function Tock(cfg: Config, c: Clocked, e: Event): Clocked {
    Clocked(Step(cfg, c.sys, e),
            if e.Run? && e.id !in c.sys.calls then c.started[e.id := c.sys.now] else c.started)
  }

  function After(cfg: Config, now: int, events: seq<Event>): Clocked {
    if events == [] then Clocked(Init(now), map[])
    else Tock(cfg, After(cfg, now, events[..|events| - 1]), events[|events| - 1])
  }

  /** The position of the last opening of a window in the log, or -1. */
  function LastOpen(log: seq<Logged>): (i: int)
    ensures -1 <= i < |log|
    ensures i >= 0 ==> Opens(log, i)
  {
    if log == [] then -1
    else if log[|log| - 1].hit.count == 1 then |log| - 1
    else LastOpen(log[..|log| - 1])
  }

  /** When the last window was opened. */
  function OpenAt(log: seq<Logged>): int
    requires LastOpen(log) >= 0
  {
    log[LastOpen(log)].hit.at
  }

  /** No unfinished call is older than `d`; in particular none has died. */
  ghost predicate Prompt(d: nat, c: Clocked) {
    forall id :: id in c.sys.calls && id in c.started && !c.sys.calls[id].Done? ==> c.sys.now <= c.started[id] + d
  }

  ghost predicate PromptRun(cfg: Config, d: nat, now: int, events: seq<Event>) {
    forall i :: 0 <= i <= |events| ==> Prompt(d, After(cfg, now, events[..i]))
  }

  // ---------------------------------------------------------------- the invariant

  /** A live window without an expiry is still in the hands of the call that opened it; one with an expiry
      ends in bounded time after its opening. */
  ghost predicate HitBounded(cfg: Config, d: nat, s: Sys) {
    Live(s.keys.hit, s.now) ==>
      && LastOpen(s.log) >= 0
      && var opener := s.log[LastOpen(s.log)];
         match s.keys.hit.value.expiry
         case None => opener.id in s.calls && (s.calls[opener.id] == Counted(opener.hit)
                                               || s.calls[opener.id] == Untimed(opener.hit))
         case Some(e) => e <= OpenAt(s.log) + 2 * d + cfg.Window()
  }

  ghost predicate BlockBounded(cfg: Config, d: nat, s: Sys) {
    Live(s.keys.block, s.now) ==>
      && LastOpen(s.log) >= 0
      && s.keys.block.value.expiry.Some?
      && s.keys.block.value.expiry.value <= OpenAt(s.log) + 3 * d + cfg.Window() + cfg.Block()
  }

  /** A call about to renew the expiry began in time; a hit over the limit came in time. */
  ghost predicate CallBounded(cfg: Config, d: nat, s: Sys, pc: Pc, start: int) {
    && start <= s.now
    && (pc.HitOf().Some? ==> start <= pc.HitOf().value.at)
    && (pc.Untimed? && Live(s.keys.hit, s.now) ==> LastOpen(s.log) >= 0 && start <= OpenAt(s.log) + d)
    && (!pc.Done? && pc.HitOf().Some? && pc.HitOf().value.count > cfg.limit ==>
          LastOpen(s.log) >= 0 && pc.HitOf().value.at <= OpenAt(s.log) + 2 * d + cfg.Window())
  }

  ghost predicate Bound(cfg: Config, d: nat, c: Clocked) {
    && c.started.Keys == c.sys.calls.Keys
    && HitBounded(cfg, d, c.sys)
    && BlockBounded(cfg, d, c.sys)
    && (forall id :: id in c.started ==> CallBounded(cfg, d, c.sys, c.sys.calls[id], c.started[id]))
  }

  lemma LastOpenSnoc(log: seq<Logged>, l: Logged)
    ensures LastOpen(log + [l]) == if l.hit.count == 1 then |log| else LastOpen(log)
  {
    assert (log + [l])[..|log|] == log;
  }

  /** While a window has no expiry, its opening is less than `d` ago. */
  lemma OpenerIsRecent(cfg: Config, d: nat, c: Clocked)
    requires Bound(cfg, d, c) && Prompt(d, c)
    requires Live(c.sys.keys.hit, c.sys.now) && c.sys.keys.hit.value.expiry.None?
    ensures LastOpen(c.sys.log) >= 0 && c.sys.now <= OpenAt(c.sys.log) + d
  {
    var opener := c.sys.log[LastOpen(c.sys.log)];
    assert opener.id in c.started;
    assert CallBounded(cfg, d, c.sys, c.sys.calls[opener.id], c.started[opener.id]);
  }

  /** One call moves to `pc'` and nothing that the others rely on changes. */
  lemma OthersStayBounded(cfg: Config, d: nat, c: Clocked, c': Clocked, id: nat)
    requires Bound(cfg, d, c) && c.sys.now == c'.sys.now && c'.sys.log == c.sys.log
    requires Live(c'.sys.keys.hit, c'.sys.now) ==> Live(c.sys.keys.hit, c.sys.now)
    requires id in c'.sys.calls && c'.sys.calls == c.sys.calls[id := c'.sys.calls[id]]
    requires id in c'.started && c'.started == c.started[id := c'.started[id]]
    requires CallBounded(cfg, d, c'.sys, c'.sys.calls[id], c'.started[id])
    requires HitBounded(cfg, d, c'.sys) && BlockBounded(cfg, d, c'.sys)
    ensures Bound(cfg, d, c')
  {
    forall k | k in c'.started
      ensures CallBounded(cfg, d, c'.sys, c'.sys.calls[k], c'.started[k])
    {
      assert k != id ==> CallBounded(cfg, d, c.sys, c.sys.calls[k], c.started[k]);
    }
  }

  lemma TickKeepsBound(cfg: Config, d: nat, c: Clocked, ms: nat)
    requires Bound(cfg, d, c)
    ensures Bound(cfg, d, Tock(cfg, c, Tick(ms)))
  {
    var c' := Tock(cfg, c, Tick(ms));
    forall k | k in c'.started
      ensures CallBounded(cfg, d, c'.sys, c'.sys.calls[k], c'.started[k])
    {
      assert CallBounded(cfg, d, c.sys, c.sys.calls[k], c.started[k]);
    }
  }

  lemma StartKeepsBound(cfg: Config, d: nat, c: Clocked, id: nat)
    requires Bound(cfg, d, c) && PcOf(c.sys, id).Start?
    ensures Bound(cfg, d, Tock(cfg, c, Run(id)))
  {
    var c' := Tock(cfg, c, Run(id));
    assert id in c.started ==> CallBounded(cfg, d, c.sys, c.sys.calls[id], c.started[id]);
    OthersStayBounded(cfg, d, c, c', id);
  }

  /** An INCR on a live window finds it in time. */
  lemma HitInTime(cfg: Config, d: nat, c: Clocked)
    requires Bound(cfg, d, c) && Prompt(d, c) && Live(c.sys.keys.hit, c.sys.now)
    ensures LastOpen(c.sys.log) >= 0 && c.sys.now <= OpenAt(c.sys.log) + 2 * d + cfg.Window()
  {
    if c.sys.keys.hit.value.expiry.None? {
      OpenerIsRecent(cfg, d, c);
    }
  }

  /** The log grows by a hit, so no opening in it moves back. */
  lemma GrownLogKeepsCall(cfg: Config, d: nat, s: Sys, s': Sys, pc: Pc, start: int)
    requires CallBounded(cfg, d, s, pc, start) && s'.now == s.now && Timely(s.log, s.now)
    requires |s'.log| == |s.log| + 1 && s'.log[..|s.log|] == s.log && s'.log[|s.log|].hit.at == s.now
    requires Live(s'.keys.hit, s'.now) && !Live(s.keys.hit, s.now) ==> s'.log[|s.log|].hit.count == 1
    ensures CallBounded(cfg, d, s', pc, start)
  {
    assert s'.log == s.log + [s'.log[|s.log|]];
    LastOpenSnoc(s.log, s'.log[|s.log|]);
  }

  lemma IncrKeepsBound(cfg: Config, d: nat, c: Clocked, id: nat)
    requires cfg.limit > 0 && Bound(cfg, d, c) && Prompt(d, c) && Throttle.Inv(cfg, c.sys)
    requires PcOf(c.sys, id).Unblocked?
    ensures Bound(cfg, d, Tock(cfg, c, Run(id)))
  {
    var c' := Tock(cfg, c, Run(id));
    var s, s' := c.sys, c'.sys;
    var l := Logged(id, Hit(s.now, Incr(s.keys.hit, s.now).value.value));
    assert s'.log == s.log + [l];
    LastOpenSnoc(s.log, l);
    if Live(s.keys.hit, s.now) {
      Positive(s.log, |s.log| - 1);
      HitInTime(cfg, d, c);
    }
    assert CallBounded(cfg, d, s, s.calls[id], c.started[id]);
    forall k | k in c'.started
      ensures CallBounded(cfg, d, s', s'.calls[k], c'.started[k])
    {
      if k != id {
        assert CallBounded(cfg, d, s, s.calls[k], c.started[k]);
        GrownLogKeepsCall(cfg, d, s, s', s.calls[k], c.started[k]);
      }
    }
    assert HitBounded(cfg, d, s') && BlockBounded(cfg, d, s');
  }

  lemma PttlKeepsBound(cfg: Config, d: nat, c: Clocked, id: nat)
    requires Bound(cfg, d, c) && Prompt(d, c) && PcOf(c.sys, id).Counted?
    ensures Bound(cfg, d, Tock(cfg, c, Run(id)))
  {
    var c' := Tock(cfg, c, Run(id));
    assert CallBounded(cfg, d, c.sys, c.sys.calls[id], c.started[id]);
    if Live(c.sys.keys.hit, c.sys.now) && c.sys.keys.hit.value.expiry.None? {
      OpenerIsRecent(cfg, d, c);
    }
    assert HitBounded(cfg, d, c'.sys);
    OthersStayBounded(cfg, d, c, c', id);
  }

  lemma PexpireKeepsBound(cfg: Config, d: nat, c: Clocked, id: nat)
    requires Bound(cfg, d, c) && Prompt(d, c) && PcOf(c.sys, id).Untimed?
    ensures Bound(cfg, d, Tock(cfg, c, Run(id)))
  {
    var c' := Tock(cfg, c, Run(id));
    assert CallBounded(cfg, d, c.sys, c.sys.calls[id], c.started[id]);
    assert HitBounded(cfg, d, c'.sys);
    OthersStayBounded(cfg, d, c, c', id);
  }

  lemma AnswerKeepsBound(cfg: Config, d: nat, c: Clocked, id: nat)
    requires Bound(cfg, d, c) && Prompt(d, c) && PcOf(c.sys, id).Timed?
    ensures Bound(cfg, d, Tock(cfg, c, Run(id)))
  {
    var c' := Tock(cfg, c, Run(id));
    assert CallBounded(cfg, d, c.sys, c.sys.calls[id], c.started[id]);
    assert BlockBounded(cfg, d, c'.sys);
    OthersStayBounded(cfg, d, c, c', id);
  }

  lemma TockKeepsBound(cfg: Config, d: nat, c: Clocked, e: Event)
    requires cfg.limit > 0 && Bound(cfg, d, c) && Prompt(d, c) && Throttle.Inv(cfg, c.sys)
    ensures Bound(cfg, d, Tock(cfg, c, e))
  {
    match e
    case Tick(ms) => TickKeepsBound(cfg, d, c, ms);
    case Run(id) =>
      match PcOf(c.sys, id)
      case Start => StartKeepsBound(cfg, d, c, id);
      case Unblocked => IncrKeepsBound(cfg, d, c, id);
      case Counted(_) => PttlKeepsBound(cfg, d, c, id);
      case Untimed(_) => PexpireKeepsBound(cfg, d, c, id);
      case Timed(_, _) => AnswerKeepsBound(cfg, d, c, id);
      case Done(_, _) => assert Tock(cfg, c, e) == c;
  }

  lemma {:induction false} AfterIsSteps(cfg: Config, now: int, events: seq<Event>)
    ensures After(cfg, now, events).sys == Steps(cfg, Init(now), events)
  {
    if events != [] {
      AfterIsSteps(cfg, now, events[..|events| - 1]);
    }
  }

  lemma {:induction false} RunKeepsBound(cfg: Config, d: nat, now: int, events: seq<Event>, k: nat)
    requires cfg.limit > 0 && PromptRun(cfg, d, now, events) && k <= |events|
    ensures Bound(cfg, d, After(cfg, now, events[..k])) && Prompt(d, After(cfg, now, events[..k]))
  {
    if k > 0 {
      var j := k - 1;
      RunKeepsBound(cfg, d, now, events, j);
      AfterIsSteps(cfg, now, events[..j]);
      RunKeepsInv(cfg, now, events[..j]);
      assert events[..k][..j] == events[..j] && events[..k][j] == events[j];
      TockKeepsBound(cfg, d, After(cfg, now, events[..j]), events[j]);
    }
  }

  /** Bounded recovery with overlapping calls: a call that is refused had started no later than window plus
      block plus `3 * d` after the opening of a window. So once no window has opened for that long, no new
      call is refused. */
  lemma OverlapRecovery(cfg: Config, d: nat, now: int, events: seq<Event>, k: nat, id: nat)
    requires cfg.limit > 0 && PromptRun(cfg, d, now, events)
    requires k < |events| && events[k] == Run(id)
    ensures
      var c := After(cfg, now, events[..k]);
      var c' := Tock(cfg, c, events[k]);
      var pc := PcOf(c'.sys, id);
      !PcOf(c.sys, id).Done? && pc.Done? && pc.record.isBlocked ==>
        && id in c'.started && LastOpen(c.sys.log) >= 0
        && c'.started[id] <= OpenAt(c.sys.log) + (cfg.ttl + cfg.blockDuration) * 1000 + 3 * d
  {
    RunKeepsBound(cfg, d, now, events, k);
    var c := After(cfg, now, events[..k]);
    assert id in c.started ==> CallBounded(cfg, d, c.sys, c.sys.calls[id], c.started[id]);
  }

  // ---------------------------------------------------------------- calls that die

  /** A full window that never ends: PTTL answers -1 for it. */
  predicate Stalled(cfg: Config, s: Sys) {
    Live(s.keys.hit, s.now) && s.keys.hit.value.expiry.None? && s.keys.hit.value.value >= cfg.limit
  }

  /** A call that begins `ms` from now, and that nothing overlaps, is refused. */
  predicate RefusedLater(cfg: Config, s: Sys, ms: nat, w: Waits) {
    Finish(cfg, Start, s.keys, s.now + ms, w).pc.record.isBlocked
  }

  /** If no other call comes, calls are let through again from some time on. */
  ghost predicate Recovers(cfg: Config, s: Sys) {
    exists wait: nat :: ServedFrom(cfg, s, wait)
  }

  ghost predicate ServedFrom(cfg: Config, s: Sys, wait: nat) {
    forall ms: nat, w :: wait <= ms ==> !RefusedLater(cfg, s, ms, w)
  }

  lemma {:induction false} BlockHasExpiry(cfg: Config, now: int, events: seq<Event>)
    ensures
      var block := Steps(cfg, Init(now), events).keys.block;
      block.Some? ==> block.value.expiry.Some?
  {
    if events != [] {
      BlockHasExpiry(cfg, now, events[..|events| - 1]);
    }
  }

  /** How long what is now on the two keys lasts at most, if it ends at all. */
  function Rest<V>(slot: Slot<V>, now: int): nat {
    if slot.Some? && slot.value.expiry.Some? then Max(0, slot.value.expiry.value - now) else 0
  }

  lemma RestedIsServed(cfg: Config, s: Sys, ms: nat, w: Waits)
    requires cfg.limit > 0 && !Stalled(cfg, s) && (s.keys.block.Some? ==> s.keys.block.value.expiry.Some?)
    requires Rest(s.keys.hit, s.now) <= ms && Rest(s.keys.block, s.now) <= ms
    ensures !RefusedLater(cfg, s, ms, w)
  {
    FinishUnfolds(cfg, s.keys, s.now + ms, w);
  }

  lemma StalledIsRefused(cfg: Config, s: Sys, ms: nat, w: Waits)
    requires Stalled(cfg, s)
    ensures RefusedLater(cfg, s, ms, w)
  {
    FinishUnfolds(cfg, s.keys, s.now + ms, w);
  }

  /** After any run, with calls that have died anywhere, the limiter recovers by itself if and only if it
      does not hold a full window without an expiry. */
  lemma RecoversExactly(cfg: Config, now: int, events: seq<Event>)
    requires cfg.limit > 0
    ensures
      var s := Steps(cfg, Init(now), events);
      Recovers(cfg, s) <==> !Stalled(cfg, s)
  {
    var s := Steps(cfg, Init(now), events);
    BlockHasExpiry(cfg, now, events);
    if Stalled(cfg, s) {
      var w := Waits(0, 0, 0, 0, 0);
      forall wait: nat
        ensures !ServedFrom(cfg, s, wait)
      {
        StalledIsRefused(cfg, s, wait, w);
        assert RefusedLater(cfg, s, wait, w);
      }
    } else {
      var wait := Max(Rest(s.keys.hit, s.now), Rest(s.keys.block, s.now));
      forall ms: nat, w | wait <= ms
        ensures !RefusedLater(cfg, s, ms, w)
      {
        RestedIsServed(cfg, s, ms, w);
      }
      assert ServedFrom(cfg, s, wait);
    }
  }

  /** A call that is counted to its end, though it be refused, leaves no window stalled. */
  lemma CountedCallRepairs(cfg: Config, s: Sys, w: Waits)
    ensures
      var o := Finish(cfg, Start, s.keys, s.now, w);
      o.pc.served.Some? ==> !Stalled(cfg, s.(keys := o.keys, now := o.now))
  {
    AnswerReportsKeys(cfg, s.keys, s.now, w);
  }

  /** Such a window comes about: if the call that opens one dies before its PEXPIRE and the limit is 1, the
      next call is refused however late it comes. */
  lemma DeadOpenerStalls(cfg: Config, now: int, ms: nat, w: Waits) returns (events: seq<Event>)
    requires cfg.limit == 1
    ensures
      var s := Steps(cfg, Init(now), events);
      && s.now == now + ms && LastOpen(s.log) >= 0 && OpenAt(s.log) == now
      && Stalled(cfg, s) && RefusedLater(cfg, s, 0, w)
  {
    var s0 := Init(now);
    assert Steps(cfg, s0, []) == s0;
    StepsSnoc(cfg, s0, [], Run(0));
    StepsSnoc(cfg, s0, [] + [Run(0)], Run(0));
    StepsSnoc(cfg, s0, [] + [Run(0)] + [Run(0)], Tick(ms));
    events := [] + [Run(0)] + [Run(0)] + [Tick(ms)];
    var s := Steps(cfg, s0, events);
    assert s.keys == Keys(Some(Entry(1, None)), None);
    assert s.log == [Logged(0, Hit(now, 1))];
    StalledIsRefused(cfg, s, 0, w);
  }
}
