/** The demo seeder's follow graph: random picks, unique edges, and counters counted from the edges. */
module Seed {
  import opened Common
  import opened Follows

  // ---------------------------------------------------------------- picking at random

  predicate Distinct<T(==)>(s: seq<T>) {
    forall i, j :: 0 <= i < j < |s| ==> s[i] != s[j]
  }

  /** The elements to pick from. */
  function Pool<T(==)>(arr: seq<T>, exclude: Option<T>): seq<T> {
    if arr == [] then []
    else
      var front := Pool(arr[..|arr| - 1], exclude);
      if exclude == Some(arr[|arr| - 1]) then front else front + [arr[|arr| - 1]]
  }

  /** How many a pick takes: the pool shrinks while the result grows, so it stops half way. */
  function Taken(n: int, pool: nat): nat {
    Max(0, Min(n, (pool + 1) / 2))
  }

  /** So a pick of `n` out of a pool of at least `n` is short exactly when `n` is more than half of it. */
  lemma ShortPick(n: nat, pool: nat)
    requires n <= pool
    ensures Taken(n, pool) < n <==> 2 * n > pool + 1
  {
  }

  lemma SnocDistinct<T>(s: seq<T>, x: T)
    requires Distinct(s) && x !in s
    ensures Distinct(s + [x])
  {
  }

  lemma {:induction false} PoolKeeps<T>(arr: seq<T>, exclude: Option<T>)
    ensures forall x :: x in Pool(arr, exclude) <==> x in arr && exclude != Some(x)
    ensures Distinct(arr) ==> Distinct(Pool(arr, exclude))
    ensures |Pool(arr, exclude)| <= |arr|
    ensures Distinct(arr) && exclude.Some? && exclude.value in arr ==> |Pool(arr, exclude)| == |arr| - 1
    ensures (exclude.Some? ==> exclude.value !in arr) ==> Pool(arr, exclude) == arr
  {
    if arr != [] {
      var n := |arr| - 1;
      assert arr == arr[..n] + [arr[n]];
      PoolKeeps(arr[..n], exclude);
      if Distinct(arr) {
        assert arr[n] !in arr[..n];
        SnocDistinct(Pool(arr[..n], exclude), arr[n]);
      }
    }
  }

  lemma {:induction false} DistinctCounts<T>(s: seq<T>, x: T)
    requires Distinct(s)
    ensures multiset(s)[x] <= 1
  {
    if s != [] {
      var n := |s| - 1;
      assert s == s[..n] + [s[n]];
      DistinctCounts(s[..n], x);
      assert s[n] !in s[..n];
    }
  }

  lemma CountsTwice<T>(s: seq<T>, i: nat, j: nat)
    requires i < j < |s| && s[i] == s[j]
    ensures multiset(s)[s[i]] >= 2
  {
    assert s == s[..j] + [s[j]] + s[j + 1..];
    assert s[i] in s[..j];
  }

  lemma PartOfDistinct<T>(part: seq<T>, whole: seq<T>)
    requires multiset(part) <= multiset(whole) && Distinct(whole)
    ensures Distinct(part)
  {
    forall i, j | 0 <= i < j < |part|
      ensures part[i] != part[j]
    {
      if part[i] == part[j] {
        CountsTwice(part, i, j);
        DistinctCounts(whole, part[i]);
      }
    }
  }

  /** Scales a draw from the half-open unit interval to the integers from `min` to `max`. */
  function Dice(u: real, min: int, max: int): int
    requires min <= max
  {
    (u * (max - min + 1) as real).Floor + min
  }

  lemma Scaled(x: real, y: real, n: real)
    requires n > 0.0
    ensures x < y <==> x * n < y * n
  {
  }

  lemma Quotient(a: real, u: real, n: real)
    requires n > 0.0
    ensures a / n <= u <==> a <= u * n
  {
    var q := a / n;
    assert q * n == a;
    Scaled(u, q, n);
  }

  lemma FloorExactly(x: real, j: int)
    ensures x.Floor == j <==> j as real <= x < j as real + 1.0
  {
    if j as real <= x < j as real + 1.0 {
      assert j <= x.Floor < j + 1;
    }
  }

  /** Every integer from `min` to `max`, and none besides, has the same share of the unit interval. */
  lemma EqualShares(u: real, min: int, max: int, k: int)
    requires 0.0 <= u < 1.0 && min <= max
    ensures
      var sides := (max - min + 1) as real;
      && min <= Dice(u, min, max) <= max
      && (Dice(u, min, max) == k <==> (k - min) as real / sides <= u < (k - min + 1) as real / sides)
  {
    var sides := (max - min + 1) as real;
    var roll := u * sides;
    Scaled(u, 1.0, sides);
    Quotient(0.0, u, sides);
    assert 0.0 <= roll < sides;
    assert 0 <= roll.Floor < max - min + 1;
    FloorExactly(roll, k - min);
    Quotient((k - min) as real, u, sides);
    Quotient((k - min + 1) as real, u, sides);
  }

  /** A number of the half-open unit interval; which one is left open. */
  method Random() returns (u: real)
    ensures 0.0 <= u < 1.0
  {
    u := *;
    if u < 0.0 || 1.0 <= u {
      u := 0.0;
    }
  }

  method RandInt(min: int, max: int) returns (r: int)
    requires min <= max
    ensures min <= r <= max
  {
    var u := Random();
    EqualShares(u, min, max, min);
    r := Dice(u, min, max);
  }

  /** Drawing moves one element from the pool to the result. */
  lemma Drawn<T>(out: seq<T>, pool: seq<T>, i: nat)
    requires i < |pool|
    ensures multiset(out + [pool[i]]) + multiset(pool[..i] + pool[i + 1..]) == multiset(out) + multiset(pool)
  {
    assert pool == pool[..i] + [pool[i]] + pool[i + 1..];
  }

  lemma PickedFromPool<T>(arr: seq<T>, exclude: Option<T>, out: seq<T>)
    requires multiset(out) <= multiset(Pool(arr, exclude))
    ensures forall x :: x in out ==> x in arr && exclude != Some(x)
    ensures Distinct(arr) ==> Distinct(out)
  {
    PoolKeeps(arr, exclude);
    forall x | x in out
      ensures x in Pool(arr, exclude)
    {
      assert x in multiset(out);
    }
    if Distinct(arr) {
      PartOfDistinct(out, Pool(arr, exclude));
    }
  }

  /** The loop's arithmetic: it goes on exactly while fewer than `Taken` have been drawn. */
  lemma TakenReached(out: nat, n: int, pool: nat, all: nat)
    requires out + pool == all && out <= Taken(n, all)
    ensures out < Min(n, pool) <==> out < Taken(n, all)
  {
  }

  /** Draws without replacement; exactly `Taken` many, whatever is drawn. */
  method PickN<T(==)>(arr: seq<T>, n: int, exclude: Option<T>) returns (out: seq<T>)
    ensures |out| == Taken(n, |Pool(arr, exclude)|) == Max(0, Min(n, (|Pool(arr, exclude)| + 1) / 2))
    ensures multiset(out) <= multiset(Pool(arr, exclude))
    ensures forall x :: x in out ==> x in arr && exclude != Some(x)
    ensures Distinct(arr) ==> Distinct(out)
  {
    var pool := Pool(arr, exclude);
    ghost var all := pool;
    out := [];
    while |out| < Min(n, |pool|)
      invariant |out| + |pool| == |all|
      invariant multiset(out) + multiset(pool) == multiset(all)
      invariant |out| <= Taken(n, |all|)
      decreases |pool|
    {
      TakenReached(|out|, n, |pool|, |all|);
      var i := RandInt(0, |pool| - 1);
      Drawn(out, pool, i);
      out := out + [pool[i]];
      pool := pool[..i] + pool[i + 1..];
    }
    TakenReached(|out|, n, |pool|, |all|);
    PickedFromPool(arr, exclude, out);
  }

  // ---------------------------------------------------------------- unique edges

  /** Different ids are written differently, and never with a colon. */
  ghost predicate Names(text: nat -> string) {
    && (forall a :: ':' !in text(a))
    && (forall a, b :: text(a) == text(b) ==> a == b)
  }

  function EdgeKey(text: nat -> string, e: Edge): string {
    text(e.follower) + ":" + text(e.following)
  }

  lemma EdgeKeyIdentifies(text: nat -> string, e: Edge, f: Edge)
    requires Names(text)
    ensures EdgeKey(text, e) == EdgeKey(text, f) <==> e == f
  {
    if EdgeKey(text, e) == EdgeKey(text, f) {
      SeparatorSplits(text(e.follower), text(e.following), text(f.follower), text(f.following), ':');
    }
  }

  function Added(edges: seq<Edge>, e: Edge): seq<Edge> {
    if e.follower == e.following || e in edges then edges else edges + [e]
  }

  function AddedAll(edges: seq<Edge>, follower: nat, targets: seq<nat>): seq<Edge> {
    if targets == [] then edges
    else Added(AddedAll(edges, follower, targets[..|targets| - 1]), Edge(follower, targets[|targets| - 1]))
  }

  ghost predicate Simple(edges: seq<Edge>) {
    Distinct(edges) && forall e :: e in edges ==> e.follower != e.following
  }

  /** A follower's new edges change nobody else's following, and none is lost if all are new. */
  lemma {:induction false} AddedAllCounts(edges: seq<Edge>, u: nat, targets: seq<nat>)
    requires Distinct(targets) && u !in targets
    requires forall t :: t in targets ==> Edge(u, t) !in edges
    ensures
      var after := AddedAll(edges, u, targets);
      && (forall e :: e in after <==> e in edges || (e.follower == u && e.following in targets))
      && Degree(after, u, FollowingCount) == Degree(edges, u, FollowingCount) + |targets|
      && (forall w :: w != u ==> Degree(after, w, FollowingCount) == Degree(edges, w, FollowingCount))
  {
    if targets != [] {
      var n := |targets| - 1;
      var front, last := targets[..n], targets[n];
      assert targets == front + [last] && last !in front;
      AddedAllCounts(edges, u, front);
      var before := AddedAll(edges, u, front);
      assert AddedAll(edges, u, targets) == before + [Edge(u, last)];
      forall w
        ensures Degree(before + [Edge(u, last)], w, FollowingCount)
                == Degree(before, w, FollowingCount) + if w == u then 1 else 0
      {
        DegreeSnoc(before, Edge(u, last), w, FollowingCount);
      }
    }
  }

  class EdgeBuilder {
    var edgeSeen: set<string>
    var edges: seq<Edge>
    const name: nat -> string

    constructor (name: nat -> string)
      requires Names(name)
      ensures this.name == name && edges == [] && Valid()
    {
      this.name := name;
      edgeSeen, edges := {}, [];
    }

    /** The keys seen are those of the edges, which are unique and never from a person to themselves. */
    ghost predicate Valid()
      reads this
    {
      && Names(name)
      && (forall e :: EdgeKey(name, e) in edgeSeen <==> e in edges)
      && Simple(edges)
    }

    method AddEdge(follower: nat, following: nat)
      requires Valid()
      modifies this
      ensures Valid()
      ensures edges == Added(old(edges), Edge(follower, following))
    {
      if follower == following {
        return;
      }
      var e := Edge(follower, following);
      var key := EdgeKey(name, e);
      if key in edgeSeen {
        return;
      }
      edgeSeen := edgeSeen + {key};
      edges := edges + [e];
      forall f
        ensures EdgeKey(name, f) in edgeSeen <==> f in edges
      {
        EdgeKeyIdentifies(name, e, f);
      }
    }

    method AddEdges(follower: nat, targets: seq<nat>)
      requires Valid()
      modifies this
      ensures Valid()
      ensures edges == AddedAll(old(edges), follower, targets)
    {
      for i := 0 to |targets|
        invariant Valid()
        invariant edges == AddedAll(old(edges), follower, targets[..i])
      {
        assert targets[..i + 1][..i] == targets[..i];
        AddEdge(follower, targets[i]);
      }
      assert targets[..|targets|] == targets;
    }
  }

  // ---------------------------------------------------------------- the whole graph

  /** The draws that decide how many each person follows: `draw(p, k)` is person `p`'s draw number `k`. */
  ghost predicate Draws(draw: (nat, nat) -> real) {
    forall p, k :: 0.0 <= draw(p, k) < 1.0
  }

  /** A user follows as many as the draws say, 2 to 4 vendors and 1 to 3 peers, and half of what there is at
      most. */
  ghost predicate UserDegree(draw: (nat, nat) -> real, u: nat, degree: nat, users: nat, vendors: nat)
    requires users > 0
  {
    && degree == Taken(Dice(draw(u, 0), 2, 4), vendors) + Taken(Dice(draw(u, 1), 1, 3), users - 1)
    && Taken(2, vendors) + Taken(1, users - 1) <= degree <= Taken(4, vendors) + Taken(3, users - 1)
  }

  /** A vendor follows 0 to 2 others. */
  ghost predicate VendorDegree(draw: (nat, nat) -> real, v: nat, degree: nat, vendors: nat)
    requires vendors > 0
  {
    && degree == Taken(Dice(draw(v, 0), 0, 2), vendors - 1)
    && degree <= Taken(2, vendors - 1)
  }

  lemma {:induction false} NoneFollowing(edges: seq<Edge>, u: nat)
    requires forall e :: e in edges ==> e.follower != u
    ensures Degree(edges, u, FollowingCount) == 0
  {
    if edges != [] {
      NoneFollowing(edges[..|edges| - 1], u);
    }
  }

  lemma SplitDistinct(users: seq<nat>, vendors: seq<nat>)
    requires Distinct(users + vendors)
    ensures Distinct(users) && Distinct(vendors)
    ensures forall u :: u in users ==> u !in vendors
  {
    var all := users + vendors;
    forall i, j | 0 <= i < |users| && 0 <= j < |vendors|
      ensures users[i] != vendors[j]
    {
      assert all[i] == users[i] && all[|users| + j] == vendors[j];
    }
    forall i, j | 0 <= i < j < |vendors|
      ensures vendors[i] != vendors[j]
    {
      assert all[|users| + i] == vendors[i] && all[|users| + j] == vendors[j];
    }
    forall i, j | 0 <= i < j < |users|
      ensures users[i] != users[j]
    {
      assert all[i] == users[i] && all[j] == users[j];
    }
  }

  /** What one person's picked follows do: as many edges as were picked, all from that person. */
  ghost predicate Grew(before: seq<Edge>, after: seq<Edge>, u: nat, arr: seq<nat>, n: int) {
    && Degree(after, u, FollowingCount) == Degree(before, u, FollowingCount) + n
    && (forall w :: w != u ==> Degree(after, w, FollowingCount) == Degree(before, w, FollowingCount))
    && (forall e :: e in after ==> e in before || (e.follower == u && e.following in arr))
  }

  method FollowPicked(b: EdgeBuilder, u: nat, arr: seq<nat>, n: int, exclude: Option<nat>)
    requires b.Valid() && Distinct(arr) && u !in Pool(arr, exclude)
    requires forall t :: t in arr ==> Edge(u, t) !in b.edges
    modifies b
    ensures b.Valid()
    ensures Grew(old(b.edges), b.edges, u, arr, Taken(n, |Pool(arr, exclude)|))
  {
    PoolKeeps(arr, exclude);
    var picked := PickN(arr, n, exclude);
    AddedAllCounts(b.edges, u, picked);
    b.AddEdges(u, picked);
  }

  /** One user's follows: some vendors, then some other users. */
  method FollowFromUser(draw: (nat, nat) -> real, b: EdgeBuilder, u: nat, users: seq<nat>, vendors: seq<nat>)
    requires Draws(draw) && b.Valid() && Distinct(users + vendors) && u in users
    requires forall e :: e in b.edges ==> e.follower != u
    modifies b
    ensures b.Valid()
    ensures UserDegree(draw, u, Degree(b.edges, u, FollowingCount), |users|, |vendors|)
    ensures Grew(old(b.edges), b.edges, u, users + vendors, Degree(b.edges, u, FollowingCount))
  {
    SplitDistinct(users, vendors);
    NoneFollowing(b.edges, u);
    PoolKeeps(vendors, None);
    PoolKeeps(users, Some(u));
    EqualShares(draw(u, 0), 2, 4, 2);
    var n := Dice(draw(u, 0), 2, 4);
    FollowPicked(b, u, vendors, n, None);
    EqualShares(draw(u, 1), 1, 3, 1);
    var m := Dice(draw(u, 1), 1, 3);
    FollowPicked(b, u, users, m, Some(u));
  }

  /** One vendor's follows: some other vendors. */
  method FollowFromVendor(draw: (nat, nat) -> real, b: EdgeBuilder, v: nat, vendors: seq<nat>)
    requires Draws(draw) && b.Valid() && Distinct(vendors) && v in vendors
    requires forall e :: e in b.edges ==> e.follower != v
    modifies b
    ensures b.Valid()
    ensures VendorDegree(draw, v, Degree(b.edges, v, FollowingCount), |vendors|)
    ensures Grew(old(b.edges), b.edges, v, vendors, Degree(b.edges, v, FollowingCount))
  {
    NoneFollowing(b.edges, v);
    PoolKeeps(vendors, Some(v));
    EqualShares(draw(v, 0), 0, 2, 0);
    var n := Dice(draw(v, 0), 0, 2);
    FollowPicked(b, v, vendors, n, Some(v));
  }

  /** The edges so far: between these people only, and following counts in their ranges for everybody
      who has had their turn. */
  ghost predicate GraphSoFar(draw: (nat, nat) -> real, edges: seq<Edge>, done: seq<nat>,
                             users: seq<nat>, vendors: seq<nat>)
  {
    && (forall e :: e in edges ==> e.follower in done && (e.following in users || e.following in vendors))
    && (forall u :: u in done && u in users ==>
          UserDegree(draw, u, Degree(edges, u, FollowingCount), |users|, |vendors|))
    && (forall v :: v in done && v in vendors ==>
          VendorDegree(draw, v, Degree(edges, v, FollowingCount), |vendors|))
  }

  lemma OneMoreDone(draw: (nat, nat) -> real, before: seq<Edge>, after: seq<Edge>, done: seq<nat>, u: nat,
                    arr: seq<nat>, users: seq<nat>, vendors: seq<nat>)
    requires GraphSoFar(draw, before, done, users, vendors)
    requires Grew(before, after, u, arr, Degree(after, u, FollowingCount)) && u !in done
    requires forall x :: x in arr ==> x in users || x in vendors
    requires u in users ==> UserDegree(draw, u, Degree(after, u, FollowingCount), |users|, |vendors|)
    requires u in vendors ==> VendorDegree(draw, u, Degree(after, u, FollowingCount), |vendors|)
    ensures GraphSoFar(draw, after, done + [u], users, vendors)
  {
  }

  lemma NextIsNew(s: seq<nat>, i: nat)
    requires Distinct(s) && i < |s|
    ensures s[i] in s && s[i] !in s[..i] && s[..i] + [s[i]] == s[..i + 1]
  {
  }

  method FollowFromUsers(draw: (nat, nat) -> real, b: EdgeBuilder, users: seq<nat>, vendors: seq<nat>)
    requires Draws(draw) && b.Valid() && Distinct(users + vendors) && b.edges == []
    modifies b
    ensures b.Valid() && GraphSoFar(draw, b.edges, users, users, vendors)
  {
    SplitDistinct(users, vendors);
    for i := 0 to |users|
      invariant b.Valid() && GraphSoFar(draw, b.edges, users[..i], users, vendors)
    {
      ghost var before := b.edges;
      var u := users[i];
      NextIsNew(users, i);
      FollowFromUser(draw, b, u, users, vendors);
      OneMoreDone(draw, before, b.edges, users[..i], u, users + vendors, users, vendors);
    }
    assert users[..|users|] == users;
  }

  method FollowFromVendors(draw: (nat, nat) -> real, b: EdgeBuilder, users: seq<nat>, vendors: seq<nat>)
    requires Draws(draw) && b.Valid() && Distinct(users + vendors) && GraphSoFar(draw, b.edges, users, users, vendors)
    modifies b
    ensures b.Valid() && GraphSoFar(draw, b.edges, users + vendors, users, vendors)
  {
    SplitDistinct(users, vendors);
    assert users + vendors[..0] == users;
    for i := 0 to |vendors|
      invariant b.Valid() && GraphSoFar(draw, b.edges, users + vendors[..i], users, vendors)
    {
      ghost var before := b.edges;
      var v := vendors[i];
      NextIsNew(vendors, i);
      FollowFromVendor(draw, b, v, vendors);
      OneMoreDone(draw, before, b.edges, users + vendors[..i], v, vendors, users, vendors);
      assert users + vendors[..i] + [v] == users + vendors[..i + 1];
    }
    assert vendors[..|vendors|] == vendors;
  }

  /** The generation loops. Nobody's picks are lost to the duplicate check. */
  method GenerateFollows(name: nat -> string, draw: (nat, nat) -> real, users: seq<nat>, vendors: seq<nat>)
    returns (edges: seq<Edge>)
    requires Names(name) && Draws(draw) && Distinct(users + vendors)
    ensures Simple(edges) && GraphSoFar(draw, edges, users + vendors, users, vendors)
  {
    var b := new EdgeBuilder(name);
    FollowFromUsers(draw, b, users, vendors);
    FollowFromVendors(draw, b, users, vendors);
    edges := b.edges;
  }

  // ---------------------------------------------------------------- counters

  function CountAt(counts: map<string, nat>, key: string): nat {
    if key in counts then counts[key] else 0
  }

  /** The counting loop: both counters of everybody, under the text of their id. */
  method CountEdges(name: nat -> string, edges: seq<Edge>)
    returns (followers: map<string, nat>, following: map<string, nat>)
    requires Names(name)
    ensures forall p :: CountAt(followers, name(p)) == Degree(edges, p, FollowersCount)
    ensures forall p :: CountAt(following, name(p)) == Degree(edges, p, FollowingCount)
  {
    followers, following := map[], map[];
    for i := 0 to |edges|
      invariant forall p :: CountAt(followers, name(p)) == Degree(edges[..i], p, FollowersCount)
      invariant forall p :: CountAt(following, name(p)) == Degree(edges[..i], p, FollowingCount)
    {
      var e := edges[i];
      following := following[name(e.follower) := CountAt(following, name(e.follower)) + 1];
      followers := followers[name(e.following) := CountAt(followers, name(e.following)) + 1];
      assert edges[..i] + [e] == edges[..i + 1];
      forall p
        ensures Degree(edges[..i + 1], p, FollowersCount)
                == Degree(edges[..i], p, FollowersCount) + if e.following == p then 1 else 0
        ensures Degree(edges[..i + 1], p, FollowingCount)
                == Degree(edges[..i], p, FollowingCount) + if e.follower == p then 1 else 0
      {
        DegreeSnoc(edges[..i], e, p, FollowersCount);
        DegreeSnoc(edges[..i], e, p, FollowingCount);
      }
    }
    assert edges[..|edges|] == edges;
  }

  lemma {:induction false} DegreeAppend(a: seq<Edge>, b: seq<Edge>, p: nat, c: Counter)
    ensures Degree(a + b, p, c) == Degree(a, p, c) + Degree(b, p, c)
  {
    if b == [] {
      assert a + b == a;
    } else {
      assert (a + b)[..|a + b| - 1] == a + b[..|b| - 1];
      DegreeAppend(a, b[..|b| - 1], p, c);
    }
  }

  /** A follow graph whose counters are the degrees, as the follow service keeps it. */
  ghost predicate ExactGraph(users: map<nat, Counts>, edges: seq<Edge>) {
    && GraphInv(Db(users, edges, multiset{}))
    && (forall p, c :: p in users ==> users[p].Get(c) == Degree(edges, p, c))
  }

  function Counted(edges: seq<Edge>, p: nat): Counts {
    Counts(Degree(edges, p, FollowersCount), Degree(edges, p, FollowingCount))
  }

  /** The storing loop: the counters of these people are replaced, nobody else's. */
  method StoreCounts(name: nat -> string, people: seq<nat>, stored: map<nat, Counts>, seeded: seq<Edge>)
    returns (stored': map<nat, Counts>)
    requires Names(name) && forall p :: p in people ==> p in stored
    ensures stored'.Keys == stored.Keys
    ensures forall p :: p in stored ==> stored'[p] == if p in people then Counted(seeded, p) else stored[p]
  {
    var followers, following := CountEdges(name, seeded);
    stored' := stored;
    for i := 0 to |people|
      invariant stored'.Keys == stored.Keys
      invariant forall p :: p in stored ==>
                  stored'[p] == if p in people[..i] then Counted(seeded, p) else stored[p]
    {
      var p := people[i];
      stored' := stored'[p := Counts(CountAt(followers, name(p)), CountAt(following, name(p)))];
    }
    assert people[..|people|] == people;
  }

  /** Seeds new people, whom no edge touches yet, into a follow graph, and leaves it exact for everybody. */
  method SeedFollows(name: nat -> string, draw: (nat, nat) -> real, users: seq<nat>, vendors: seq<nat>,
                     stored: map<nat, Counts>, existing: seq<Edge>)
    returns (stored': map<nat, Counts>, edges: seq<Edge>)
    requires Names(name) && Draws(draw) && Distinct(users + vendors)
    requires forall p :: p in users + vendors ==> p in stored
    requires ExactGraph(stored, existing)
    requires forall e :: e in existing ==> e.follower !in users + vendors && e.following !in users + vendors
    ensures stored'.Keys == stored.Keys && existing <= edges
    ensures ExactGraph(stored', edges)
    ensures GraphSoFar(draw, edges[|existing|..], users + vendors, users, vendors)
    ensures forall p :: p in stored && p !in users + vendors ==> stored'[p] == stored[p]
  {
    var seeded := GenerateFollows(name, draw, users, vendors);
    edges := existing + seeded;
    assert edges[|existing|..] == seeded;
    stored' := StoreCounts(name, vendors + users, stored, seeded);
    JoinedGraphIsExact(stored, existing, stored', seeded, users + vendors);
  }

  lemma JoinedGraphIsExact(stored: map<nat, Counts>, existing: seq<Edge>, stored': map<nat, Counts>,
                           seeded: seq<Edge>, people: seq<nat>)
    requires ExactGraph(stored, existing) && Simple(seeded) && stored'.Keys == stored.Keys
    requires forall e :: e in existing ==> e.follower !in people && e.following !in people
    requires forall e :: e in seeded ==> e.follower in people && e.following in people
    requires forall p :: p in stored ==> stored'[p] == if p in people then Counted(seeded, p) else stored[p]
    ensures ExactGraph(stored', existing + seeded)
  {
    forall p, c | p in stored'
      ensures stored'[p].Get(c) == Degree(existing + seeded, p, c)
    {
      DegreeAppend(existing, seeded, p, c);
      if p in people {
        DegreeOfUnreferenced(existing, p, c);
      } else {
        DegreeOfUnreferenced(seeded, p, c);
      }
    }
  }
}
