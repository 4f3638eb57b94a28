/** The uncached Discover query: filter, sort by start date, cut at 200 rows. */
module TrekQuery {
  import opened Common
  import opened TrekSeats

  datatype OrganizerType = Vendor | Peer

  datatype Difficulty = Easy | Moderate | Hard | Expert

  datatype EcoRating = LowImpact | Regenerative

  /** `terms` is what the text index holds for the title and the location; `details` stands for the
      fields that no filter looks at. */
  datatype Trek = Trek(
    id: nat,
    organizer: nat,
    organizerType: OrganizerType,
    difficulty: Difficulty,
    ecoRating: Option<EcoRating>,
    price: Option<int>,
    seats: Seats,
    dateStart: int,
    terms: set<string>,
    details: string,
    rating: real,
    reviewCount: nat,
    updatedAt: int)

  /** An absent filter is None; `destination` holds the search terms. */
  datatype Filters = Filters(
    organizerType: Option<OrganizerType>,
    difficulty: Option<Difficulty>,
    ecoRating: Option<EcoRating>,
    maxBudget: Option<int>,
    availableSeatsOnly: bool,
    destination: Option<set<string>>)

  const ROW_LIMIT := 200

  predicate Matches(t: Trek, f: Filters) {
    && (f.organizerType.Some? ==> t.organizerType == f.organizerType.value)
    && (f.difficulty.Some? ==> t.difficulty == f.difficulty.value)
    && (f.ecoRating.Some? ==> t.ecoRating == f.ecoRating)
    && (f.maxBudget.Some? ==> t.price.None? || t.price.value <= f.maxBudget.value)
    && (f.availableSeatsOnly ==> t.seats.left > 0)
    && (f.destination.Some? ==> t.terms * f.destination.value != {})
  }

  function Select(docs: seq<Trek>, f: Filters): seq<Trek> {
    if docs == [] then []
    else if Matches(docs[0], f) then [docs[0]] + Select(docs[1..], f)
    else Select(docs[1..], f)
  }

  function Insert(t: Trek, sorted: seq<Trek>): seq<Trek> {
    if sorted == [] || t.dateStart <= sorted[0].dateStart then [t] + sorted
    else [sorted[0]] + Insert(t, sorted[1..])
  }

  function SortByStart(docs: seq<Trek>): seq<Trek> {
    if docs == [] then [] else Insert(docs[0], SortByStart(docs[1..]))
  }

  function Cut(rows: seq<Trek>): seq<Trek> {
    rows[..Min(|rows|, ROW_LIMIT)]
  }

  function Query(docs: seq<Trek>, f: Filters): seq<Trek> {
    Cut(SortByStart(Select(docs, f)))
  }

  // ---------------------------------------------------------------- what the query means

  ghost predicate Sorted(rows: seq<Trek>) {
    forall i, j :: 0 <= i <= j < |rows| ==> rows[i].dateStart <= rows[j].dateStart
  }

  lemma {:induction false} InsertAdds(t: Trek, sorted: seq<Trek>)
    ensures multiset(Insert(t, sorted)) == multiset{t} + multiset(sorted)
    ensures |Insert(t, sorted)| == |sorted| + 1
  {
    if sorted != [] && sorted[0].dateStart < t.dateStart {
      InsertAdds(t, sorted[1..]);
      assert sorted == [sorted[0]] + sorted[1..];
    }
  }

  lemma {:induction false} InsertSorts(t: Trek, sorted: seq<Trek>)
    requires Sorted(sorted)
    ensures Sorted(Insert(t, sorted))
  {
    if sorted != [] && sorted[0].dateStart < t.dateStart {
      var rest := Insert(t, sorted[1..]);
      InsertSorts(t, sorted[1..]);
      InsertAdds(t, sorted[1..]);
      forall i | 0 <= i < |rest|
        ensures sorted[0].dateStart <= rest[i].dateStart
      {
        assert rest[i] in multiset(rest);
        assert rest[i] == t || rest[i] in sorted[1..];
      }
    }
  }

  lemma {:induction false} SortSorts(docs: seq<Trek>)
    ensures Sorted(SortByStart(docs))
    ensures multiset(SortByStart(docs)) == multiset(docs)
    ensures |SortByStart(docs)| == |docs|
  {
    if docs != [] {
      SortSorts(docs[1..]);
      InsertSorts(docs[0], SortByStart(docs[1..]));
      InsertAdds(docs[0], SortByStart(docs[1..]));
      assert docs == [docs[0]] + docs[1..];
    }
  }

  lemma {:induction false} SelectMembers(docs: seq<Trek>, f: Filters, t: Trek)
    ensures multiset(Select(docs, f))[t] == if Matches(t, f) then multiset(docs)[t] else 0
  {
    if docs != [] {
      SelectMembers(docs[1..], f, t);
      assert docs == [docs[0]] + docs[1..];
    }
  }

  lemma CutKeepsEarliest(all: seq<Trek>, k: nat, t: Trek)
    requires Sorted(all) && k <= |all|
    ensures multiset(all[..k])[t] <= multiset(all)[t]
    ensures multiset(all[..k])[t] < multiset(all)[t] ==>
              forall i :: 0 <= i < k ==> all[i].dateStart <= t.dateStart
  {
    assert all == all[..k] + all[k..];
    assert multiset(all) == multiset(all[..k]) + multiset(all[k..]);
    if multiset(all[..k])[t] < multiset(all)[t] {
      assert t in multiset(all[k..]);
      var j :| k <= j < |all| && all[j] == t;
    }
  }

  lemma QueryCounts(docs: seq<Trek>, f: Filters, t: Trek)
    ensures
      var rows := Query(docs, f);
      && Sorted(rows)
      && |rows| <= ROW_LIMIT
      && multiset(rows)[t] <= (if Matches(t, f) then multiset(docs)[t] else 0)
      && (Matches(t, f) && multiset(rows)[t] < multiset(docs)[t] ==>
            |rows| == ROW_LIMIT && forall i :: 0 <= i < |rows| ==> rows[i].dateStart <= t.dateStart)
  {
    var all := SortByStart(Select(docs, f));
    SortSorts(Select(docs, f));
    SelectMembers(docs, f, t);
    CutKeepsEarliest(all, Min(|all|, ROW_LIMIT), t);
    assert all[..|all|] == all;
  }

  lemma AnswerIsSorted(docs: seq<Trek>, f: Filters)
    ensures Sorted(Query(docs, f)) && |Query(docs, f)| <= 200
  {
    SortSorts(Select(docs, f));
  }

  /** What a searcher asks of a trek: every filter that is given is met. */
  ghost predicate Meets(t: Trek, f: Filters) {
    && (f.organizerType == None || f.organizerType == Some(t.organizerType))
    && (f.difficulty == None || f.difficulty == Some(t.difficulty))
    && (f.ecoRating == None || f.ecoRating == t.ecoRating)
    && (f.maxBudget.None? || t.price.None? || t.price.value <= f.maxBudget.value)
    && (f.availableSeatsOnly ==> t.seats.left > 0)
    && (f.destination.None? || exists term :: term in t.terms && term in f.destination.value)
  }

  /** The answer is sorted by start date. It holds treks of the collection only, none more often than that
      does, and each of them meets every filter that is given: the organizer type, the difficulty, the eco
      rating, a price that is absent or within the budget, a seat left, a search term. A trek that meets
      them all is missing only from a full answer of 200, and then it starts no earlier than every row. */
  lemma QueryMeaning(docs: seq<Trek>, f: Filters, t: Trek)
    ensures
      var rows := Query(docs, f);
      && Sorted(rows)
      && |rows| <= 200
      && multiset(rows)[t] <= multiset(docs)[t]
      && (t in rows ==>
            && (f.organizerType == None || f.organizerType == Some(t.organizerType))
            && (f.difficulty == None || f.difficulty == Some(t.difficulty))
            && (f.ecoRating == None || f.ecoRating == t.ecoRating)
            && (f.maxBudget.None? || t.price.None? || t.price.value <= f.maxBudget.value)
            && (f.availableSeatsOnly ==> t.seats.left > 0)
            && (f.destination.None? || exists term :: term in t.terms && term in f.destination.value))
      && ((f.organizerType == None || f.organizerType == Some(t.organizerType))
          && (f.difficulty == None || f.difficulty == Some(t.difficulty))
          && (f.ecoRating == None || f.ecoRating == t.ecoRating)
          && (f.maxBudget.None? || t.price.None? || t.price.value <= f.maxBudget.value)
          && (f.availableSeatsOnly ==> t.seats.left > 0)
          && (f.destination.None? || exists term :: term in t.terms && term in f.destination.value)
          && multiset(rows)[t] < multiset(docs)[t]
          ==> |rows| == 200 && forall i :: 0 <= i < |rows| ==> rows[i].dateStart <= t.dateStart)
  {
    var rows := Query(docs, f);
    QueryCounts(docs, f, t);
    if t in rows {
      assert t in multiset(rows);
    }
    if f.destination.Some? {
      var shared := t.terms * f.destination.value;
      if shared != {} {
        var term :| term in shared;
        assert term in t.terms && term in f.destination.value;
      }
      if term :| term in t.terms && term in f.destination.value {
        assert term in shared;
      }
    }
  }

  lemma RowMeets(docs: seq<Trek>, f: Filters, t: Trek)
    requires t in Query(docs, f)
    ensures Meets(t, f)
  {
    QueryMeaning(docs, f, t);
  }

  lemma FoundUnlessFull(docs: seq<Trek>, f: Filters, t: Trek)
    requires t in docs && Meets(t, f) && |Query(docs, f)| < 200
    ensures t in Query(docs, f)
  {
    QueryMeaning(docs, f, t);
    assert t in multiset(docs);
    assert t in multiset(Query(docs, f));
  }

  // ---------------------------------------------------------------- review fields do not matter

  /** A trek without the fields that a review writes, and writes without an invalidation: the published
      rating, the review count, and the time stamp that every update sets. */
  function Strip(t: Trek): Trek {
    t.(rating := 0.0, reviewCount := 0, updatedAt := 0)
  }

  function StripAll(rows: seq<Trek>): (r: seq<Trek>)
    ensures |r| == |rows|
    ensures forall i :: 0 <= i < |rows| ==> r[i] == Strip(rows[i])
  {
    if rows == [] then [] else [Strip(rows[0])] + StripAll(rows[1..])
  }

  lemma {:induction false} StripSelect(docs: seq<Trek>, f: Filters)
    ensures StripAll(Select(docs, f)) == Select(StripAll(docs), f)
  {
    if docs != [] {
      StripSelect(docs[1..], f);
      assert StripAll(docs)[1..] == StripAll(docs[1..]);
      if Matches(docs[0], f) {
        assert Select(docs, f)[1..] == Select(docs[1..], f);
      }
    }
  }

  lemma {:induction false} StripInsert(t: Trek, sorted: seq<Trek>)
    ensures StripAll(Insert(t, sorted)) == Insert(Strip(t), StripAll(sorted))
  {
    if sorted == [] || t.dateStart <= sorted[0].dateStart {
      assert Insert(t, sorted)[1..] == sorted;
    } else {
      StripInsert(t, sorted[1..]);
      assert Insert(t, sorted)[1..] == Insert(t, sorted[1..]);
      assert StripAll(sorted)[1..] == StripAll(sorted[1..]);
    }
  }

  lemma {:induction false} StripSort(docs: seq<Trek>)
    ensures StripAll(SortByStart(docs)) == SortByStart(StripAll(docs))
  {
    if docs != [] {
      StripSort(docs[1..]);
      StripInsert(docs[0], SortByStart(docs[1..]));
      assert StripAll(docs)[1..] == StripAll(docs[1..]);
    }
  }

  lemma StripCut(rows: seq<Trek>)
    ensures StripAll(Cut(rows)) == Cut(StripAll(rows))
  {
  }

  /** Collections that differ in review fields only give the same treks in the same order. */
  lemma ReviewFieldsDoNotMatter(docs: seq<Trek>, docs': seq<Trek>, f: Filters)
    requires StripAll(docs) == StripAll(docs')
    ensures StripAll(Query(docs, f)) == StripAll(Query(docs', f))
  {
    StripSelect(docs, f);
    StripSelect(docs', f);
    StripSort(Select(docs, f));
    StripSort(Select(docs', f));
    StripCut(SortByStart(Select(docs, f)));
    StripCut(SortByStart(Select(docs', f)));
  }
}
