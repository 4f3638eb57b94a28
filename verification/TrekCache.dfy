/** The cached Discover list: readers that look up, query and fill, writers that write, scan and delete. */
module TrekCache {
  import opened Common
  import opened Redis
  import opened TrekSeats
  import opened TrekQuery

  const CACHE_PREFIX := "treks:list:"
  const CACHE_TTL_SECONDS := 60

  // ---------------------------------------------------------------- interleaved readers and writers

  /** A cached answer, with the history of its fill: when it was queried, when it was stored, and the
      collection at that moment. */
  datatype Cached = Cached(rows: seq<Trek>, expiry: int, queried: int, filled: int, docs: seq<Trek>)

  /** A findAll between its commands; an answer carries the history of the fill that it came from. */
  datatype Reader =
    | Missed(filters: Filters)
    | Queried(filters: Filters, rows: seq<Trek>, queried: int, version: nat)
    | Answered(filters: Filters, rows: seq<Trek>, queried: int, filled: int, at: int)

  /** A state of the collection and the instant it came about. */
  datatype Version = Version(from: int, docs: seq<Trek>)

  /** `writers` are writes whose invalidation is not over: first unscanned, then with the keys their scan
      found. `past` is every state of the collection so far, the current one last; `writes` counts the
      writes that go with an invalidation. */
  datatype Sys = Sys(
    now: int,
    past: seq<Version>,
    writes: nat,
    cache: map<Filters, Cached>,
    readers: map<nat, Reader>,
    writers: map<nat, Option<set<Filters>>>)

  function Docs(s: Sys): seq<Trek> {
    if s.past == [] then [] else s.past[|s.past| - 1].docs
  }

  predicate Hit(s: Sys, f: Filters) {
    f in s.cache && s.now < s.cache[f].expiry
  }

  datatype Event =
    | Tick(ms: nat)
    | LookUp(reader: nat, filters: Filters)
    | RunQuery(reader: nat)
    | Fill(reader: nat)
    | Write(writer: nat, docs: seq<Trek>)
    | Scan(writer: nat)
    | Delete(writer: nat)
    | Rate(docs: seq<Trek>)

  function Step(s: Sys, e: Event): Sys {
    match e
    case Tick(ms) => s.(now := s.now + ms)
    case LookUp(r, f) =>
      if r in s.readers then s
      else if Hit(s, f) then
        var c := s.cache[f];
        s.(readers := s.readers[r := Answered(f, c.rows, c.queried, c.filled, s.now)])
      else s.(readers := s.readers[r := Missed(f)])
    case RunQuery(r) =>
      if r !in s.readers || !s.readers[r].Missed? then s
      else
        var f := s.readers[r].filters;
        s.(readers := s.readers[r := Queried(f, Query(Docs(s), f), s.now, s.writes)])
    case Fill(r) =>
      if r !in s.readers || !s.readers[r].Queried? then s
      else
        var q := s.readers[r];
        s.(cache := s.cache[q.filters := Cached(q.rows, s.now + CACHE_TTL_SECONDS * 1000, q.queried, s.now, Docs(s))],
           readers := s.readers[r := Answered(q.filters, q.rows, q.queried, s.now, s.now)])
    case Write(w, docs) =>
      if w in s.writers then s
      else s.(past := s.past + [Version(s.now, docs)], writes := s.writes + 1, writers := s.writers[w := None])
    case Scan(w) =>
      if w !in s.writers then s else s.(writers := s.writers[w := Some(s.cache.Keys)])
    case Delete(w) =>
      if w !in s.writers || s.writers[w].None? then s
      else s.(cache := s.cache - s.writers[w].value, writers := s.writers - {w})
    case Rate(docs) =>
      if StripAll(docs) != StripAll(Docs(s)) then s
      else s.(past := s.past + [Version(s.now, docs)])
  }

  function Init(now: int): Sys {
    Sys(now, [Version(now, [])], 0, map[], map[], map[])
  }

  function Steps(now: int, events: seq<Event>): Sys {
    if events == [] then Init(now)
    else Step(Steps(now, events[..|events| - 1]), events[|events| - 1])
  }

  /** Version `i` was the collection's state at some moment of the instant `at`. */
  predicate CurrentAt(past: seq<Version>, i: nat, at: int)
    requires i < |past|
  {
    past[i].from <= at && (i + 1 < |past| ==> at <= past[i + 1].from)
  }

  /** `rows` answered `f` on a state that the collection had at the instant `at`. */
  ghost predicate TrueAt(past: seq<Version>, rows: seq<Trek>, f: Filters, at: int) {
    exists i: nat :: i < |past| && CurrentAt(past, i, at) && rows == Query(past[i].docs, f)
  }

  ghost predicate ReaderInv(past: seq<Version>, now: int, r: Reader) {
    match r
    case Missed(_) => true
    case Queried(f, rows, queried, _) => queried <= now && TrueAt(past, rows, f, queried)
    case Answered(f, rows, queried, filled, at) =>
      && queried <= filled <= at <= now
      && at < filled + CACHE_TTL_SECONDS * 1000
      && TrueAt(past, rows, f, queried)
  }

  ghost predicate CachedInv(past: seq<Version>, now: int, f: Filters, c: Cached) {
    && c.queried <= c.filled <= now
    && c.expiry == c.filled + CACHE_TTL_SECONDS * 1000
    && TrueAt(past, c.rows, f, c.queried)
  }

  ghost predicate Inv(s: Sys) {
    && |s.past| > 0 && s.past[|s.past| - 1].from <= s.now
    && (forall f :: f in s.cache ==> CachedInv(s.past, s.now, f, s.cache[f]))
    && (forall r :: r in s.readers ==> ReaderInv(s.past, s.now, s.readers[r]))
  }

  lemma TrueAtStays(past: seq<Version>, v: Version, rows: seq<Trek>, f: Filters, at: int)
    requires TrueAt(past, rows, f, at) && at <= v.from
    ensures TrueAt(past + [v], rows, f, at)
  {
    var i: nat :| i < |past| && CurrentAt(past, i, at) && rows == Query(past[i].docs, f);
    assert CurrentAt(past + [v], i, at) && rows == Query((past + [v])[i].docs, f);
  }

  lemma NewVersionKeepsInv(s: Sys, docs: seq<Trek>)
    requires Inv(s)
    ensures
      var past := s.past + [Version(s.now, docs)];
      && (forall f :: f in s.cache ==> CachedInv(past, s.now, f, s.cache[f]))
      && (forall r :: r in s.readers ==> ReaderInv(past, s.now, s.readers[r]))
  {
    var v := Version(s.now, docs);
    forall f | f in s.cache
      ensures CachedInv(s.past + [v], s.now, f, s.cache[f])
    {
      TrueAtStays(s.past, v, s.cache[f].rows, f, s.cache[f].queried);
    }
    forall r | r in s.readers
      ensures ReaderInv(s.past + [v], s.now, s.readers[r])
    {
      if !s.readers[r].Missed? {
        TrueAtStays(s.past, v, s.readers[r].rows, s.readers[r].filters, s.readers[r].queried);
      }
    }
  }

  lemma TickKeepsInv(s: Sys, ms: nat)
    requires Inv(s)
    ensures Inv(Step(s, Tick(ms)))
  {
    var now := s.now + ms;
    assert forall f :: f in s.cache && CachedInv(s.past, s.now, f, s.cache[f]) ==>
        CachedInv(s.past, now, f, s.cache[f]);
    assert forall r :: r in s.readers && ReaderInv(s.past, s.now, s.readers[r]) ==>
        ReaderInv(s.past, now, s.readers[r]);
  }

  /** A command of one reader that leaves it and the cache sound, and nothing else changed. */
  lemma ReaderKeepsInv(s: Sys, s': Sys, r: nat)
    requires Inv(s) && s'.past == s.past && s'.now == s.now
    requires r in s'.readers && s'.readers == s.readers[r := s'.readers[r]]
    requires ReaderInv(s.past, s.now, s'.readers[r])
    requires forall f :: f in s'.cache ==> CachedInv(s.past, s.now, f, s'.cache[f])
    ensures Inv(s')
  {
  }

  lemma LookUpKeepsInv(s: Sys, r: nat, f: Filters)
    requires Inv(s)
    ensures Inv(Step(s, LookUp(r, f)))
  {
    if r !in s.readers {
      assert Hit(s, f) ==> CachedInv(s.past, s.now, f, s.cache[f]);
      ReaderKeepsInv(s, Step(s, LookUp(r, f)), r);
    }
  }

  lemma QueryKeepsInv(s: Sys, r: nat)
    requires Inv(s)
    ensures Inv(Step(s, RunQuery(r)))
  {
    if r in s.readers && s.readers[r].Missed? {
      assert CurrentAt(s.past, |s.past| - 1, s.now);
      ReaderKeepsInv(s, Step(s, RunQuery(r)), r);
    }
  }

  lemma FillKeepsInv(s: Sys, r: nat)
    requires Inv(s)
    ensures Inv(Step(s, Fill(r)))
  {
    if r in s.readers && s.readers[r].Queried? {
      assert ReaderInv(s.past, s.now, s.readers[r]);
      ReaderKeepsInv(s, Step(s, Fill(r)), r);
    }
  }

  lemma StepKeepsInv(s: Sys, e: Event)
    requires Inv(s)
    ensures Inv(Step(s, e))
  {
    match e
    case Write(w, docs) => NewVersionKeepsInv(s, docs);
    case Rate(docs) => NewVersionKeepsInv(s, docs);
    case Tick(ms) => TickKeepsInv(s, ms);
    case Scan(w) =>
    case Delete(w) =>
    case LookUp(r, f) => LookUpKeepsInv(s, r, f);
    case RunQuery(r) => QueryKeepsInv(s, r);
    case Fill(r) => FillKeepsInv(s, r);
  }

  lemma {:induction false} RunKeepsInv(now: int, events: seq<Event>)
    ensures Inv(Steps(now, events))
  {
    if events != [] {
      RunKeepsInv(now, events[..|events| - 1]);
      StepKeepsInv(Steps(now, events[..|events| - 1]), events[|events| - 1]);
    }
  }

  /** Bounded staleness, whatever the interleaving: every answer is what the query said on a state the
      collection really had, at an instant less than 60 s plus the filling reader's own query-to-set
      delay before the answer. */
  lemma BoundedStaleness(now: int, events: seq<Event>, r: nat)
    ensures
      var s := Steps(now, events);
      r in s.readers && s.readers[r].Answered? ==>
        var a := s.readers[r];
        && TrueAt(s.past, a.rows, a.filters, a.queried)
        && a.queried <= a.filled <= a.at
        && a.at - a.queried < 60000 + (a.filled - a.queried)
  {
    RunKeepsInv(now, events);
    var s := Steps(now, events);
    assert r in s.readers ==> ReaderInv(s.past, s.now, s.readers[r]);
  }

  // ---------------------------------------------------------------- when the cache is exact

  /** The answer is the query's, up to the review fields. */
  ghost predicate Fresh(docs: seq<Trek>, f: Filters, rows: seq<Trek>) {
    StripAll(rows) == StripAll(Query(docs, f))
  }

  /** Some unfinished invalidation will still delete the key. */
  ghost predicate Doomed(writers: map<nat, Option<set<Filters>>>, f: Filters) {
    exists w :: w in writers && (writers[w].None? || f in writers[w].value)
  }

  /** What a list was stored against is still the collection, unless the list is about to be deleted. */
  ghost predicate Kept(docs: seq<Trek>, cache: map<Filters, Cached>, writers: map<nat, Option<set<Filters>>>) {
    forall f :: f in cache ==> StripAll(docs) == StripAll(cache[f].docs) || Doomed(writers, f)
  }

  ghost predicate KeptSinceFill(s: Sys) {
    Kept(Docs(s), s.cache, s.writers)
  }

  lemma DoomSurvives(s: Sys, e: Event, f: Filters)
    requires (e.Scan? || e.Delete?) && f in Step(s, e).cache && Doomed(s.writers, f)
    ensures Doomed(Step(s, e).writers, f)
  {
    var s' := Step(s, e);
    var w :| w in s.writers && (s.writers[w].None? || f in s.writers[w].value);
    assert w in s'.writers && (s'.writers[w].None? || f in s'.writers[w].value);
  }

  lemma InvalidationKeepsFills(s: Sys, e: Event)
    requires KeptSinceFill(s) && (e.Scan? || e.Delete?)
    ensures KeptSinceFill(Step(s, e))
  {
    var s' := Step(s, e);
    forall f | f in s'.cache
      ensures StripAll(Docs(s')) == StripAll(s'.cache[f].docs) || Doomed(s'.writers, f)
    {
      assert f in s.cache && s'.cache[f] == s.cache[f] && Docs(s') == Docs(s);
      if Doomed(s.writers, f) {
        DoomSurvives(s, e, f);
      }
    }
  }

  lemma FillKeepsFills(s: Sys, r: nat)
    requires KeptSinceFill(s)
    ensures KeptSinceFill(Step(s, Fill(r)))
  {
  }

  lemma WriteKeepsFills(s: Sys, w: nat, docs: seq<Trek>)
    requires KeptSinceFill(s)
    ensures KeptSinceFill(Step(s, Write(w, docs)))
  {
    assert w in Step(s, Write(w, docs)).writers;
  }

  lemma RateKeepsFills(s: Sys, docs: seq<Trek>)
    requires KeptSinceFill(s)
    ensures KeptSinceFill(Step(s, Rate(docs)))
  {
  }

  lemma ReadsChangeReadersOnly(s: Sys, e: Event)
    requires e.Tick? || e.LookUp? || e.RunQuery?
    ensures Step(s, e).past == s.past && Step(s, e).cache == s.cache && Step(s, e).writers == s.writers
  {
  }

  lemma SameCacheKeepsFills(s: Sys, s': Sys)
    requires KeptSinceFill(s) && s'.past == s.past && s'.cache == s.cache && s'.writers == s.writers
    ensures KeptSinceFill(s')
  {
    assert Docs(s') == Docs(s);
  }

  lemma StepKeepsFills(s: Sys, e: Event)
    requires KeptSinceFill(s)
    ensures KeptSinceFill(Step(s, e))
  {
    match e
    case Write(w, docs) => WriteKeepsFills(s, w, docs);
    case Rate(docs) => RateKeepsFills(s, docs);
    case Fill(r) => FillKeepsFills(s, r);
    case Scan(w) => InvalidationKeepsFills(s, e);
    case Delete(w) => InvalidationKeepsFills(s, e);
    case _ =>
      ReadsChangeReadersOnly(s, e);
      SameCacheKeepsFills(s, Step(s, e));
  }

  lemma {:induction false} RunKeepsFills(now: int, events: seq<Event>)
    ensures KeptSinceFill(Steps(now, events))
  {
    if events != [] {
      RunKeepsFills(now, events[..|events| - 1]);
      StepKeepsFills(Steps(now, events[..|events| - 1]), events[|events| - 1]);
    }
  }

  /** In every run, whenever no invalidation is under way: a cached list is what the query would say now if
      and only if it was what the query would have said at the moment it was stored. */
  lemma StaleExactly(now: int, events: seq<Event>, f: Filters)
    ensures
      var s := Steps(now, events);
      s.writers == map[] && f in s.cache ==>
        (Fresh(Docs(s), f, s.cache[f].rows) <==> Fresh(s.cache[f].docs, f, s.cache[f].rows))
  {
    var s := Steps(now, events);
    RunKeepsFills(now, events);
    if s.writers == map[] && f in s.cache {
      ReviewFieldsDoNotMatter(Docs(s), s.cache[f].docs, f);
    }
  }

  // ---------------------------------------------------------------- fills that no write overtakes

  /** No write falls between a reader's query and its fill. */
  ghost predicate NoStraddle(now: int, events: seq<Event>) {
    forall i :: 0 <= i < |events| && events[i].Fill? ==>
      var s := Steps(now, events[..i]);
      events[i].reader in s.readers && s.readers[events[i].reader].Queried? ==>
        s.readers[events[i].reader].version == s.writes
  }

  /** A reader that has seen every write so far holds a fresh answer. */
  ghost predicate ReaderCoherent(docs: seq<Trek>, writes: nat, r: Reader) {
    r.Queried? ==> r.version <= writes && (r.version == writes ==> Fresh(docs, r.filters, r.rows))
  }

  ghost predicate Coherent(s: Sys) {
    && (forall f :: f in s.cache ==> Fresh(s.cache[f].docs, f, s.cache[f].rows))
    && (forall r :: r in s.readers ==> ReaderCoherent(Docs(s), s.writes, s.readers[r]))
  }

  lemma RateKeepsCoherent(s: Sys, docs: seq<Trek>)
    requires Coherent(s)
    ensures Coherent(Step(s, Rate(docs)))
  {
    if StripAll(docs) == StripAll(Docs(s)) {
      forall f: Filters
        ensures StripAll(Query(Docs(s), f)) == StripAll(Query(docs, f))
      {
        ReviewFieldsDoNotMatter(Docs(s), docs, f);
      }
    }
  }

  lemma WriteKeepsCoherent(s: Sys, w: nat, docs: seq<Trek>)
    requires Coherent(s)
    ensures Coherent(Step(s, Write(w, docs)))
  {
    var s' := Step(s, Write(w, docs));
    forall r | r in s'.readers
      ensures ReaderCoherent(Docs(s'), s'.writes, s'.readers[r])
    {
      assert ReaderCoherent(Docs(s), s.writes, s.readers[r]);
    }
  }

  lemma FillKeepsCoherent(s: Sys, r: nat)
    requires Coherent(s)
    requires r in s.readers && s.readers[r].Queried? ==> s.readers[r].version == s.writes
    ensures Coherent(Step(s, Fill(r)))
  {
    assert r in s.readers ==> ReaderCoherent(Docs(s), s.writes, s.readers[r]);
    assert Docs(Step(s, Fill(r))) == Docs(s);
  }

  /** Replacing one reader by a coherent one, and nothing else. */
  lemma ReaderReplaced(s: Sys, s': Sys, r: nat)
    requires Coherent(s) && s'.past == s.past && s'.cache == s.cache && s'.writes == s.writes
    requires r in s'.readers && s'.readers == s.readers[r := s'.readers[r]]
    requires ReaderCoherent(Docs(s), s.writes, s'.readers[r])
    ensures Coherent(s')
  {
    forall k | k in s'.readers
      ensures ReaderCoherent(Docs(s'), s'.writes, s'.readers[k])
    {
      assert k != r ==> ReaderCoherent(Docs(s), s.writes, s.readers[k]);
    }
  }

  lemma QueryKeepsCoherent(s: Sys, r: nat)
    requires Coherent(s)
    ensures Coherent(Step(s, RunQuery(r)))
  {
    if r in s.readers && s.readers[r].Missed? {
      ReaderReplaced(s, Step(s, RunQuery(r)), r);
    }
  }

  lemma LookUpKeepsCoherent(s: Sys, r: nat, f: Filters)
    requires Coherent(s)
    ensures Coherent(Step(s, LookUp(r, f)))
  {
    if r !in s.readers {
      var s' := Step(s, LookUp(r, f));
      assert !s'.readers[r].Queried?;
      ReaderReplaced(s, s', r);
    }
  }

  lemma InvalidationKeepsCoherent(s: Sys, e: Event)
    requires Coherent(s) && (e.Tick? || e.Scan? || e.Delete?)
    ensures Coherent(Step(s, e))
  {
    var s' := Step(s, e);
    assert s'.past == s.past && s'.writes == s.writes && s'.readers == s.readers;
    forall f | f in s'.cache
      ensures Fresh(s'.cache[f].docs, f, s'.cache[f].rows)
    {
      assert f in s.cache && s'.cache[f] == s.cache[f];
    }
  }

  lemma {:induction false} NoStraddleIsCoherent(now: int, events: seq<Event>)
    requires NoStraddle(now, events)
    ensures Coherent(Steps(now, events))
  {
    if events != [] {
      var n := |events| - 1;
      var s, e := Steps(now, events[..n]), events[n];
      assert forall i :: 0 <= i < n ==> events[..n][..i] == events[..i];
      NoStraddleIsCoherent(now, events[..n]);
      match e
      case Rate(docs) => RateKeepsCoherent(s, docs);
      case Write(w, docs) => WriteKeepsCoherent(s, w, docs);
      case Fill(r) =>
        assert events[n].Fill?;
        FillKeepsCoherent(s, r);
      case LookUp(r, f) => LookUpKeepsCoherent(s, r, f);
      case RunQuery(r) => QueryKeepsCoherent(s, r);
      case _ => InvalidationKeepsCoherent(s, e);
    }
  }

  /** In particular, if no write falls between a query and its fill, every cached list is what the query
      would say now whenever no invalidation is under way, however lookups, fills, scans and deletions
      have interleaved. */
  lemma ExactWhenQuiet(now: int, events: seq<Event>, f: Filters)
    requires NoStraddle(now, events)
    ensures
      var s := Steps(now, events);
      s.writers == map[] && f in s.cache ==> Fresh(Docs(s), f, s.cache[f].rows)
  {
    NoStraddleIsCoherent(now, events);
    StaleExactly(now, events, f);
  }

  const ANY := Filters(None, None, None, None, false, None)

  /** A fill that straddles a whole write and invalidation stores a stale list, and leaves it with no
      invalidation to remove it. */
  lemma StraddlingFillStaysStale(now: int, t: Trek) returns (events: seq<Event>)
    ensures
      var s := Steps(now, events);
      && s.writers == map[] && Hit(s, ANY) && Query(Docs(s), ANY) == [t]
      && s.cache[ANY].rows == [] && !Fresh(s.cache[ANY].docs, ANY, s.cache[ANY].rows)
  {
    var x1 := Then(now, [], LookUp(0, ANY));
    var x2 := Then(now, x1, RunQuery(0));
    var x3 := Then(now, x2, Write(0, [t]));
    var x4 := Then(now, x3, Scan(0));
    var x5 := Then(now, x4, Delete(0));
    events := Then(now, x5, Fill(0));
    StraddlingWrite(now, t);
    StraddlingFill(Steps(now, x3));
    assert Select([t], ANY) == [t] && SortByStart([t]) == [t];
  }

  lemma Then(now: int, events: seq<Event>, e: Event) returns (events': seq<Event>)
    ensures Steps(now, events') == Step(Steps(now, events), e)
  {
    events' := events + [e];
    assert events'[..|events|] == events;
  }

  lemma StraddlingWrite(now: int, t: Trek)
    ensures Step(Step(Step(Init(now), LookUp(0, ANY)), RunQuery(0)), Write(0, [t])) ==
            Sys(now, [Version(now, []), Version(now, [t])], 1, map[],
                map[0 := Queried(ANY, [], now, 0)], map[0 := None])
  {
    assert [Version(now, [])] + [Version(now, [t])] == [Version(now, []), Version(now, [t])];
  }

  lemma StraddlingFill(s: Sys)
    requires s.cache == map[] && 0 in s.readers && s.readers[0].Queried? && s.writers == map[0 := None]
    ensures
      var s' := Step(Step(Step(s, Scan(0)), Delete(0)), Fill(0));
      var f := s.readers[0].filters;
      s'.writers == map[] && s'.past == s.past && Hit(s', f) && s'.cache[f].rows == s.readers[0].rows
  {
  }

  // ---------------------------------------------------------------- whole calls

  datatype User = User(vendor: bool, verified: bool, treksCount: int)

  datatype Error = AccountNotFound | VendorsOnly | KycRequired | TrekNotFound | NotOwner

  datatype Draft = Draft(
    organizerType: OrganizerType,
    difficulty: Difficulty,
    ecoRating: Option<EcoRating>,
    price: Option<int>,
    totalSeats: int,
    dateStart: int,
    terms: set<string>,
    details: string)

  /** The fields an organizer may change; the organizer type and the seats left are not among them. The
      eco rating and the price may also be cleared. */
  datatype Patch = Patch(
    difficulty: Option<Difficulty>,
    ecoRating: Option<Option<EcoRating>>,
    price: Option<Option<int>>,
    totalSeats: Option<int>,
    dateStart: Option<int>,
    terms: Option<set<string>>,
    details: Option<string>)

  function Or<T>(o: Option<T>, default: T): T {
    if o.Some? then o.value else default
  }

  function Assign(t: Trek, p: Patch): Trek {
    t.(difficulty := Or(p.difficulty, t.difficulty),
       ecoRating := Or(p.ecoRating, t.ecoRating),
       price := Or(p.price, t.price),
       seats := t.seats.(total := Or(p.totalSeats, t.seats.total)),
       dateStart := Or(p.dateStart, t.dateStart),
       terms := Or(p.terms, t.terms),
       details := Or(p.details, t.details))
  }

  /** A save that changes something sets the time stamp; a save that changes nothing writes nothing. */
  function Touch(before: Trek, after: Trek, at: int): Trek {
    if after == before then before else after.(updatedAt := at)
  }

  /** The position of the trek with an id, or -1. */
  function Find(docs: seq<Trek>, id: nat): (i: int)
    ensures -1 <= i < |docs|
    ensures i >= 0 ==> docs[i].id == id
    ensures i < 0 ==> forall k :: 0 <= k < |docs| ==> docs[k].id != id
  {
    if docs == [] then -1
    else if docs[|docs| - 1].id == id then |docs| - 1
    else Find(docs[..|docs| - 1], id)
  }

  lemma SameButForReviews(rows: seq<Trek>, rows': seq<Trek>)
    requires StripAll(rows) == StripAll(rows')
    ensures |rows| == |rows'| && forall i :: 0 <= i < |rows| ==> Strip(rows[i]) == Strip(rows'[i])
  {
    assert |StripAll(rows)| == |StripAll(rows')|;
    forall i | 0 <= i < |rows|
      ensures Strip(rows[i]) == Strip(rows'[i])
    {
      assert StripAll(rows)[i] == StripAll(rows')[i];
    }
  }

  lemma MeetsButForReviews(t: Trek, t': Trek, f: Filters)
    requires Strip(t) == Strip(t') && Meets(t', f)
    ensures Meets(t, f) && t.id == t'.id && t.dateStart == t'.dateStart
  {
    assert Strip(t).terms == t.terms && Strip(t').terms == t'.terms;
  }

  lemma RowsLike(rows: seq<Trek>, answer: seq<Trek>, f: Filters)
    requires |rows| == |answer| && Sorted(answer)
    requires forall i :: 0 <= i < |rows| ==> Strip(rows[i]) == Strip(answer[i])
    requires forall i :: 0 <= i < |rows| ==> Meets(answer[i], f)
    ensures Sorted(rows) && forall i :: 0 <= i < |rows| ==> Meets(rows[i], f)
  {
    forall i | 0 <= i < |rows|
      ensures Meets(rows[i], f) && rows[i].dateStart == answer[i].dateStart
    {
      MeetsButForReviews(rows[i], answer[i], f);
    }
  }

  lemma NothingMissing(docs: seq<Trek>, f: Filters, rows: seq<Trek>, t: Trek)
    requires |rows| == |Query(docs, f)| < 200 && t in docs && Meets(t, f)
    requires forall i :: 0 <= i < |rows| ==> Strip(rows[i]) == Strip(Query(docs, f)[i])
    ensures exists i :: 0 <= i < |rows| && rows[i].id == t.id
  {
    FoundUnlessFull(docs, f, t);
    var i :| 0 <= i < |rows| && Query(docs, f)[i] == t;
    assert Strip(rows[i]).id == t.id;
  }

  /** What the meaning of the query says about rows that agree with it up to the review fields. */
  lemma RowsMean(docs: seq<Trek>, f: Filters, rows: seq<Trek>)
    requires StripAll(rows) == StripAll(Query(docs, f))
    ensures |rows| == |Query(docs, f)| <= 200 && Sorted(rows)
    ensures forall i :: 0 <= i < |rows| ==> Strip(rows[i]) == Strip(Query(docs, f)[i]) && Meets(rows[i], f)
    ensures |rows| < 200 ==> forall t :: t in docs && Meets(t, f) ==> exists i :: 0 <= i < |rows| && rows[i].id == t.id
  {
    var answer := Query(docs, f);
    SameButForReviews(rows, answer);
    AnswerIsSorted(docs, f);
    forall i | 0 <= i < |answer|
      ensures Meets(answer[i], f)
    {
      RowMeets(docs, f, answer[i]);
    }
    RowsLike(rows, answer, f);
    if |rows| < 200 {
      forall t | t in docs && Meets(t, f)
        ensures exists i :: 0 <= i < |rows| && rows[i].id == t.id
      {
        NothingMissing(docs, f, rows, t);
      }
    }
  }

  class TreksService {
    var docs: seq<Trek>
    var users: map<nat, User>
    var nextId: nat
    const redis: RedisService<seq<Trek>>
    const hashFilters: Filters -> string

    /** `hashFilters` is taken to be collision-free. */
    constructor (redis: RedisService<seq<Trek>>, hashFilters: Filters -> string, users: map<nat, User>)
      requires forall f, g :: hashFilters(f) == hashFilters(g) ==> f == g
      requires redis.store == map[]
      ensures Valid() && docs == [] && this.users == users
      ensures this.redis == redis && this.hashFilters == hashFilters
    {
      docs, nextId := [], 0;
      this.users, this.redis, this.hashFilters := users, redis, hashFilters;
    }

    function CacheKey(f: Filters): string {
      CACHE_PREFIX + hashFilters(f)
    }

    /** Every live cached list is the query's, up to the review fields. */
    ghost predicate Valid()
      reads this, redis
    {
      && (forall f, g :: hashFilters(f) == hashFilters(g) ==> f == g)
      && (forall f :: Live(At(redis.store, CacheKey(f)), redis.now) ==>
            StripAll(redis.store[CacheKey(f)].value) == StripAll(Query(docs, f)))
    }

    /** Calls that do not overlap see the cache agree with the query: the same treks in the same order,
        equal in every field but the rating, the review count and the time of the last update. So every row
        meets every filter that is given, and if the answer is not full, no trek that meets them is missing.
        A miss is stored for 60 seconds, and a hit changes nothing. */
    method FindAll(f: Filters) returns (rows: seq<Trek>)
      requires Valid()
      modifies redis
      ensures Valid() && redis.now == old(redis.now)
      ensures StripAll(rows) == StripAll(Query(docs, f))
      ensures |rows| == |Query(docs, f)| && forall i :: 0 <= i < |rows| ==>
                rows[i].(rating := 0.0, reviewCount := 0, updatedAt := 0)
                == Query(docs, f)[i].(rating := 0.0, reviewCount := 0, updatedAt := 0)
      ensures |rows| <= 200 && Sorted(rows)
      ensures forall i :: 0 <= i < |rows| ==> Meets(rows[i], f)
      ensures |rows| < 200 ==>
                forall t :: t in docs && Meets(t, f) ==> exists i :: 0 <= i < |rows| && rows[i].id == t.id
      ensures Live(At(redis.store, CacheKey(f)), redis.now) && redis.store[CacheKey(f)].value == rows
      ensures old(Live(At(redis.store, CacheKey(f)), redis.now)) ==> redis.store == old(redis.store)
      ensures !old(Live(At(redis.store, CacheKey(f)), redis.now)) ==>
                redis.store == old(redis.store)["treks:list:" + hashFilters(f) := Entry(rows, Some(redis.now + 60000))]
    {
      var cached := redis.Get(CacheKey(f));
      if cached.Some? {
        RowsMean(docs, f, cached.value);
        return cached.value;
      }
      RowsMean(docs, f, Query(docs, f));
      rows := Query(docs, f);
      redis.Set(CacheKey(f), rows, CACHE_TTL_SECONDS);
      forall g | Live(At(redis.store, CacheKey(g)), redis.now)
        ensures StripAll(redis.store[CacheKey(g)].value) == StripAll(Query(docs, g))
      {
        if g != f {
          assert CacheKey(g) != CacheKey(f) by {
            assert CacheKey(f)[|CACHE_PREFIX|..] == hashFilters(f);
            assert CacheKey(g)[|CACHE_PREFIX|..] == hashFilters(g);
          }
        }
      }
    }

    method Elapse(ms: nat)
      requires Valid()
      modifies redis
      ensures Valid() && docs == old(docs)
    {
      redis.Elapse(ms);
    }

    /** Whatever has been written, nothing cached survives. */
    method InvalidateListCache(pages: seq<seq<string>>)
      requires ScanAnswers(redis.store, CACHE_PREFIX, pages)
      modifies redis
      ensures redis.store == WithoutPrefix(old(redis.store), CACHE_PREFIX)
      ensures forall f :: CacheKey(f) !in redis.store
    {
      redis.DelByPrefix(CACHE_PREFIX, pages);
    }

    method Create(userId: nat, dto: Draft, at: int, pages: seq<seq<string>>) returns (r: Result<Trek, Error>)
      requires Valid() && ScanAnswers(redis.store, CACHE_PREFIX, pages)
      modifies this, redis
      ensures Valid()
      ensures r.Err? ==> docs == old(docs) && users == old(users) && redis.store == old(redis.store)
      ensures r == Err(AccountNotFound) <==> userId !in old(users)
      ensures r == Err(VendorsOnly) <==>
                userId in old(users) && dto.organizerType == Vendor && !old(users)[userId].vendor
      ensures r == Err(KycRequired) <==>
                userId in old(users) && dto.organizerType == Peer && !old(users)[userId].verified
      ensures r.Err? ==> r.error == AccountNotFound || r.error == VendorsOnly || r.error == KycRequired
      ensures r.Ok? ==> forall f :: CacheKey(f) !in redis.store
      ensures r.Ok? ==>
                && r.value == Trek(old(nextId), userId, dto.organizerType, dto.difficulty, dto.ecoRating, dto.price,
                                   Seats(dto.totalSeats, dto.totalSeats, Upcoming), dto.dateStart, dto.terms,
                                   dto.details, 0.0, 0, at)
                && docs == old(docs) + [r.value]
                && users == old(users)[userId := old(users)[userId].(treksCount := old(users)[userId].treksCount + 1)]
    {
      if userId !in users {
        return Err(AccountNotFound);
      }
      var user := users[userId];
      if dto.organizerType == Vendor && !user.vendor {
        return Err(VendorsOnly);
      }
      if dto.organizerType == Peer && !user.verified {
        return Err(KycRequired);
      }
      var trek := Trek(nextId, userId, dto.organizerType, dto.difficulty, dto.ecoRating, dto.price,
                       TrekSeats.Fresh(dto.totalSeats), dto.dateStart, dto.terms, dto.details, 0.0, 0, at);
      nextId := nextId + 1;
      docs := docs + [trek];
      users := users[userId := user.(treksCount := user.treksCount + 1)];
      InvalidateListCache(pages);
      r := Ok(trek);
    }

    /** Writes the fields that the patch gives, and no others: not whose trek it is, not its seats left or
        status, not its rating. The time stamp moves if anything else does. */
    method Update(userId: nat, trekId: nat, dto: Patch, at: int, pages: seq<seq<string>>)
      returns (r: Result<Trek, Error>)
      requires Valid() && ScanAnswers(redis.store, CACHE_PREFIX, pages)
      modifies this`docs, redis
      ensures Valid()
      ensures
        var i := Find(old(docs), trekId);
        if i < 0 then r == Err(TrekNotFound) && docs == old(docs)
        else if old(docs)[i].organizer != userId then r == Err(NotOwner) && docs == old(docs)
        else r.Ok? && docs == old(docs)[i := r.value]
      ensures r.Err? ==> redis.store == old(redis.store)
      ensures r.Ok? ==> forall f :: CacheKey(f) !in redis.store
      ensures r.Ok? ==>
                var before, after := old(docs)[Find(old(docs), trekId)], r.value;
                && after.id == before.id && after.organizer == before.organizer
                && after.organizerType == before.organizerType
                && after.seats.left == before.seats.left && after.seats.status == before.seats.status
                && after.rating == before.rating && after.reviewCount == before.reviewCount
                && after.difficulty == (if dto.difficulty.Some? then dto.difficulty.value else before.difficulty)
                && after.ecoRating == (if dto.ecoRating.Some? then dto.ecoRating.value else before.ecoRating)
                && after.price == (if dto.price.Some? then dto.price.value else before.price)
                && after.seats.total == (if dto.totalSeats.Some? then dto.totalSeats.value else before.seats.total)
                && after.dateStart == (if dto.dateStart.Some? then dto.dateStart.value else before.dateStart)
                && after.terms == (if dto.terms.Some? then dto.terms.value else before.terms)
                && after.details == (if dto.details.Some? then dto.details.value else before.details)
                && after.updatedAt == if after.(updatedAt := before.updatedAt) == before then before.updatedAt else at
    {
      var i := Find(docs, trekId);
      if i < 0 {
        return Err(TrekNotFound);
      }
      if docs[i].organizer != userId {
        return Err(NotOwner);
      }
      docs := docs[i := Touch(docs[i], Assign(docs[i], dto), at)];
      InvalidateListCache(pages);
      r := Ok(docs[i]);
    }

    method Remove(userId: nat, trekId: nat, pages: seq<seq<string>>) returns (r: Result<bool, Error>)
      requires Valid() && ScanAnswers(redis.store, CACHE_PREFIX, pages)
      modifies this`docs, redis
      ensures Valid()
      ensures
        var i := Find(old(docs), trekId);
        if i < 0 then r == Err(TrekNotFound) && docs == old(docs)
        else if old(docs)[i].organizer != userId then r == Err(NotOwner) && docs == old(docs)
        else r == Ok(true) && docs == old(docs)[..i] + old(docs)[i + 1..]
      ensures r.Err? ==> redis.store == old(redis.store)
      ensures r.Ok? ==> forall f :: CacheKey(f) !in redis.store
    {
      var i := Find(docs, trekId);
      if i < 0 {
        return Err(TrekNotFound);
      }
      if docs[i].organizer != userId {
        return Err(NotOwner);
      }
      docs := docs[..i] + docs[i + 1..];
      InvalidateListCache(pages);
      r := Ok(true);
    }

    /** A booking or a cancel, and the invalidation after its commit. A booking that finds no seat commits
        nothing and does not come to the invalidation; a cancel does even if its trek is gone. */
    method CommitSeats(trekId: nat, op: Op, at: int, pages: seq<seq<string>>) returns (ok: bool)
      requires Valid() && ScanAnswers(redis.store, CACHE_PREFIX, pages)
      modifies this`docs, redis
      ensures Valid()
      ensures ok <==> op == Inc || (Find(old(docs), trekId) >= 0 && old(docs)[Find(old(docs), trekId)].seats.left > 0)
      ensures !ok ==> docs == old(docs) && redis.store == old(redis.store)
      ensures ok && Find(old(docs), trekId) < 0 ==> docs == old(docs)
      ensures ok && Find(old(docs), trekId) >= 0 ==>
                var before := old(docs)[Find(old(docs), trekId)];
                var left := if op == Dec then before.seats.left - 1 else before.seats.left + 1;
                var status := if op == Dec then (if left <= 1 then Closed else before.seats.status)
                              else (if left + 1 > 0 then Upcoming else before.seats.status);
                docs == old(docs)[Find(old(docs), trekId) :=
                          before.(seats := Seats(left, before.seats.total, status), updatedAt := at)]
      ensures ok ==> forall f :: CacheKey(f) !in redis.store
    {
      var i := Find(docs, trekId);
      if op == Dec && (i < 0 || Decrement(docs[i].seats).None?) {
        return false;
      }
      if i >= 0 {
        docs := docs[i := docs[i].(seats := ApplyOp(docs[i].seats, op), updatedAt := at)];
      }
      InvalidateListCache(pages);
      ok := true;
    }

    /** The one write without an invalidation; it sets the time stamp too. */
    method ApplyReviewAggregate(trekId: nat, rating: real, reviewCount: nat, at: int)
      requires Valid()
      modifies this`docs
      ensures Valid()
      ensures
        var i := Find(old(docs), trekId);
        docs == if i < 0 then old(docs)
                else old(docs)[i := old(docs)[i].(rating := rating, reviewCount := reviewCount, updatedAt := at)]
    {
      ghost var before := docs;
      var i := Find(docs, trekId);
      if i >= 0 {
        docs := docs[i := docs[i].(rating := rating, reviewCount := reviewCount, updatedAt := at)];
      }
      assert StripAll(docs) == StripAll(before);
      forall f: Filters
        ensures StripAll(Query(before, f)) == StripAll(Query(docs, f))
      {
        ReviewFieldsDoNotMatter(before, docs, f);
      }
    }
  }
}
