/** Reviews that overlap: the insert, the reading of the aggregate and its storing are steps of their own. */
module ReviewOverlap {
  import opened Common
  import opened Reviews

  datatype Target = Target(kind: TargetType, id: nat)

  /** A call that has inserted its review, and one that has read an aggregate; `read` is the history of how
      many reviews there were when it did. */
  datatype Pc =
    | Inserted(target: Target)
    | Aggregated(target: Target, aggregate: Published, read: nat)

  /** What a target shows, and how many reviews there were when the stored aggregate was read. */
  datatype Shown = Shown(aggregate: Published, read: nat)

  datatype Sys = Sys(reviews: seq<Review>, calls: map<nat, Pc>, shown: map<Target, Shown>)

  datatype Event =
    | Insert(call: nat, review: Review)
    | ReadAggregate(call: nat)
    | Store(call: nat)

  function TargetOf(r: Review): Target {
    Target(r.targetType, r.targetId)
  }

  function AggregateOf(reviews: seq<Review>, t: Target): Published {
    Aggregate(reviews, t.kind, t.id)
  }

  function Step(s: Sys, e: Event): Sys {
    match e
    case Insert(c, r) =>
      if c in s.calls || !(1.0 <= r.rating <= 5.0) then s
      else s.(reviews := s.reviews + [r], calls := s.calls[c := Inserted(TargetOf(r))])
    case ReadAggregate(c) =>
      if c !in s.calls || !s.calls[c].Inserted? then s
      else
        var t := s.calls[c].target;
        s.(calls := s.calls[c := Aggregated(t, AggregateOf(s.reviews, t), |s.reviews|)])
    case Store(c) =>
      if c !in s.calls || !s.calls[c].Aggregated? then s
      else
        var p := s.calls[c];
        s.(calls := s.calls - {c},
           shown := if p.target in s.shown then s.shown[p.target := Shown(p.aggregate, p.read)] else s.shown)
  }

  function Init(targets: set<Target>): Sys {
    Sys([], map[], map t | t in targets :: Shown(Published(0.0, 0), 0))
  }

  function Run(targets: set<Target>, events: seq<Event>): Sys {
    if events == [] then Init(targets)
    else Step(Run(targets, events[..|events| - 1]), events[|events| - 1])
  }

  /** An aggregate of the first `read` reviews. */
  predicate IsAggregate(reviews: seq<Review>, t: Target, aggregate: Published, read: nat) {
    read <= |reviews| && aggregate == AggregateOf(reviews[..read], t)
  }

  ghost predicate Inv(s: Sys) {
    && (forall c :: c in s.calls && s.calls[c].Aggregated? ==>
          IsAggregate(s.reviews, s.calls[c].target, s.calls[c].aggregate, s.calls[c].read))
    && (forall t :: t in s.shown ==> IsAggregate(s.reviews, t, s.shown[t].aggregate, s.shown[t].read))
  }

  lemma IsAggregateStays(reviews: seq<Review>, r: Review, t: Target, aggregate: Published, read: nat)
    requires IsAggregate(reviews, t, aggregate, read)
    ensures IsAggregate(reviews + [r], t, aggregate, read)
  {
    assert (reviews + [r])[..read] == reviews[..read];
  }

  lemma InsertKeepsInv(s: Sys, c: nat, r: Review)
    requires Inv(s)
    ensures Inv(Step(s, Insert(c, r)))
  {
    var s' := Step(s, Insert(c, r));
    if s' != s {
      forall k | k in s'.calls && s'.calls[k].Aggregated?
        ensures IsAggregate(s'.reviews, s'.calls[k].target, s'.calls[k].aggregate, s'.calls[k].read)
      {
        IsAggregateStays(s.reviews, r, s.calls[k].target, s.calls[k].aggregate, s.calls[k].read);
      }
      forall t | t in s'.shown
        ensures IsAggregate(s'.reviews, t, s'.shown[t].aggregate, s'.shown[t].read)
      {
        IsAggregateStays(s.reviews, r, t, s.shown[t].aggregate, s.shown[t].read);
      }
    }
  }

  lemma StepKeepsInv(s: Sys, e: Event)
    requires Inv(s)
    ensures Inv(Step(s, e))
  {
    match e
    case Insert(c, r) => InsertKeepsInv(s, c, r);
    case ReadAggregate(c) => assert s.reviews[..|s.reviews|] == s.reviews;
    case Store(c) =>
  }

  lemma {:induction false} RunKeepsInv(targets: set<Target>, events: seq<Event>)
    ensures Inv(Run(targets, events)) && Run(targets, events).shown.Keys == targets
  {
    if events != [] {
      RunKeepsInv(targets, events[..|events| - 1]);
      StepKeepsInv(Run(targets, events[..|events| - 1]), events[|events| - 1]);
    }
  }

  /** None of these reviews is of the target. */
  predicate Unreviewed(reviews: seq<Review>, t: Target) {
    forall i :: 0 <= i < |reviews| ==> TargetOf(reviews[i]) != t
  }

  lemma {:induction false} NoRatings(reviews: seq<Review>, t: Target)
    ensures RatingsOf(reviews, t.kind, t.id) == [] <==> Unreviewed(reviews, t)
  {
    if reviews != [] {
      var n := |reviews| - 1;
      var last, front := reviews[n], reviews[..n];
      NoRatings(front, t);
      assert reviews == front + [last];
      assert Unreviewed(reviews, t) <==> Unreviewed(front, t) && TargetOf(last) != t;
      RatingsSnoc(front, last, t.kind, t.id);
    }
  }

  /** More reviews leave an aggregate as it is exactly when none of them is of its target. */
  lemma AggregateMoves(seen: seq<Review>, unseen: seq<Review>, t: Target)
    ensures AggregateOf(seen + unseen, t) == AggregateOf(seen, t) <==> Unreviewed(unseen, t)
  {
    RatingsAppend(seen, unseen, t.kind, t.id);
    NoRatings(unseen, t);
    var before, more := RatingsOf(seen, t.kind, t.id), RatingsOf(unseen, t.kind, t.id);
    if more == [] {
      assert before + more == before;
    } else {
      assert |before + more| > |before|;
    }
  }

  /** In every interleaving a target shows the aggregate of its reviews as the last store to it had read
      them, and this is its aggregate now if and only if no review of it was inserted after that reading. */
  lemma ShownExactly(targets: set<Target>, events: seq<Event>, t: Target)
    requires t in targets
    ensures
      var s := Run(targets, events);
      && t in s.shown && s.shown[t].read <= |s.reviews|
      && s.shown[t].aggregate == AggregateOf(s.reviews[..s.shown[t].read], t)
      && (s.shown[t].aggregate == AggregateOf(s.reviews, t) <==> Unreviewed(s.reviews[s.shown[t].read..], t))
  {
    RunKeepsInv(targets, events);
    var s := Run(targets, events);
    assert IsAggregate(s.reviews, t, s.shown[t].aggregate, s.shown[t].read);
    var seen, unseen := s.reviews[..s.shown[t].read], s.reviews[s.shown[t].read..];
    assert s.reviews == seen + unseen;
    AggregateMoves(seen, unseen, t);
  }

  lemma Then(targets: set<Target>, events: seq<Event>, e: Event) returns (events': seq<Event>)
    ensures Run(targets, events') == Step(Run(targets, events), e)
  {
    events' := events + [e];
    assert events'[..|events|] == events;
  }

  /** Two inserts, the first of them followed at once by its reading. */
  lemma TwoInserts(t: Target, r1: Review, r2: Review)
    requires TargetOf(r1) == t && TargetOf(r2) == t && 1.0 <= r1.rating <= 5.0 && 1.0 <= r2.rating <= 5.0
    ensures
      Step(Step(Step(Init({t}), Insert(0, r1)), ReadAggregate(0)), Insert(1, r2)) ==
      Sys([r1, r2], map[0 := Aggregated(t, AggregateOf([r1], t), 1), 1 := Inserted(t)],
          map[t := Shown(Published(0.0, 0), 0)])
  {
    assert [] + [r1] == [r1] && [r1] + [r2] == [r1, r2];
    assert Init({t}).shown == map[t := Shown(Published(0.0, 0), 0)];
  }

  /** The second call reads and stores, and then the first one stores. */
  lemma Overtaking(s: Sys, t: Target, aggregate: Published)
    requires s.calls == map[0 := Aggregated(t, aggregate, 1), 1 := Inserted(t)] && t in s.shown
    ensures
      var s' := Step(Step(Step(s, ReadAggregate(1)), Store(1)), Store(0));
      s'.calls == map[] && s'.reviews == s.reviews && t in s'.shown && s'.shown[t] == Shown(aggregate, 1)
  {
    var s1 := Step(s, ReadAggregate(1));
    var s2 := Step(s1, Store(1));
    assert s2.calls == map[0 := Aggregated(t, aggregate, 1)];
    assert Step(s2, Store(0)).calls == map[];
  }

  /** Two reviews of one target whose stores come in the wrong order leave it showing the older aggregate,
      with no call under way to correct it. */
  lemma OvertakenStoreStays(r1: Review, r2: Review) returns (events: seq<Event>)
    requires TargetOf(r1) == TargetOf(r2) && 1.0 <= r1.rating <= 5.0 && 1.0 <= r2.rating <= 5.0
    ensures
      var t := TargetOf(r1);
      var s := Run({t}, events);
      && s.calls == map[] && s.reviews == [r1, r2]
      && t in s.shown && s.shown[t].read == 1 && s.shown[t].aggregate != AggregateOf(s.reviews, t)
  {
    var t := TargetOf(r1);
    var x1 := Then({t}, [], Insert(0, r1));
    var x2 := Then({t}, x1, ReadAggregate(0));
    var x3 := Then({t}, x2, Insert(1, r2));
    var x4 := Then({t}, x3, ReadAggregate(1));
    var x5 := Then({t}, x4, Store(1));
    events := Then({t}, x5, Store(0));
    TwoInserts(t, r1, r2);
    Overtaking(Run({t}, x3), t, AggregateOf([r1], t));
    ShownExactly({t}, events, t);
    assert [r1, r2][1..][0] == r2;
  }
}
