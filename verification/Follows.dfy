/** Follow edges with denormalised counters: one unique insert or delete, then two counter updates that
    run in either order, at any later time, or never. */
module Follows {
  import opened Common

  datatype Edge = Edge(follower: nat, following: nat)

  datatype Counter = FollowersCount | FollowingCount

  datatype Counts = Counts(followers: int, following: int) {
    function Get(c: Counter): int {
      match c
      case FollowersCount => followers
      case FollowingCount => following
    }

    function Add(c: Counter, delta: int): Counts {
      match c
      case FollowersCount => this.(followers := followers + delta)
      case FollowingCount => this.(following := following + delta)
    }
  }

  /** A `$inc` of one counter of one user. */
  datatype Inc = Inc(user: nat, counter: Counter, delta: int)

  /** The collections, and the counter updates that are owed: their edge has changed, they have not run. */
  datatype Db = Db(users: map<nat, Counts>, edges: seq<Edge>, owed: multiset<Inc>)

  function EndOf(e: Edge, c: Counter): nat {
    match c
    case FollowersCount => e.following
    case FollowingCount => e.follower
  }

  /** The number of edges that a user's counter should count. */
  function Degree(edges: seq<Edge>, user: nat, c: Counter): nat {
    if edges == [] then 0
    else Degree(edges[..|edges| - 1], user, c) + if EndOf(edges[|edges| - 1], c) == user then 1 else 0
  }

  function OwedFor(e: Edge, delta: int): multiset<Inc> {
    multiset{Inc(e.follower, FollowingCount, delta), Inc(e.following, FollowersCount, delta)}
  }

  function AddEdge(db: Db, e: Edge): Db {
    if e.follower == e.following || e in db.edges then db
    else db.(edges := db.edges + [e], owed := db.owed + OwedFor(e, 1))
  }

  /** deleteOne: the edge is unique, so it does not matter which match is taken. */
  function DeleteEdge(db: Db, e: Edge): Db {
    if e !in db.edges then db
    else db.(edges := Remove(db.edges, e), owed := db.owed + OwedFor(e, -1))
  }

  /** updateOne touches no document when the user does not exist. */
  function Update(users: map<nat, Counts>, inc: Inc): map<nat, Counts> {
    if inc.user in users then users[inc.user := users[inc.user].Add(inc.counter, inc.delta)] else users
  }

  function Settle(db: Db, inc: Inc): Db {
    if inc !in db.owed then db
    else db.(users := Update(db.users, inc), owed := db.owed - multiset{inc})
  }

  /** A new account has an id that nothing refers to yet. */
  predicate Unreferenced(db: Db, user: nat) {
    && user !in db.users
    && (forall e :: e in db.edges ==> e.follower != user && e.following != user)
    && (forall inc :: inc in db.owed ==> inc.user != user)
  }

  datatype Event =
    | UserCreated(user: nat)
    | EdgeInserted(edge: Edge)
    | EdgeDeleted(edge: Edge)
    | CounterUpdated(inc: Inc)

  function Apply(db: Db, e: Event): Db {
    match e
    case UserCreated(u) => if Unreferenced(db, u) then db.(users := db.users[u := Counts(0, 0)]) else db
    case EdgeInserted(edge) => AddEdge(db, edge)
    case EdgeDeleted(edge) => DeleteEdge(db, edge)
    case CounterUpdated(inc) => Settle(db, inc)
  }

  const EMPTY := Db(map[], [], multiset{})

  function Run(events: seq<Event>): Db {
    if events == [] then EMPTY
    else Apply(Run(events[..|events| - 1]), events[|events| - 1])
  }

  /** A stored counter is its degree, less the additions and plus the subtractions still owed. */
  ghost predicate InLedger(db: Db, user: nat, c: Counter) {
    user in db.users ==>
      db.users[user].Get(c) ==
      Degree(db.edges, user, c) - db.owed[Inc(user, c, 1)] + db.owed[Inc(user, c, -1)]
  }

  ghost predicate GraphInv(db: Db) {
    && (forall i, j :: 0 <= i < j < |db.edges| ==> db.edges[i] != db.edges[j])
    && (forall e :: e in db.edges ==> e.follower != e.following)
    && (forall inc :: inc in db.owed ==> inc.delta == 1 || inc.delta == -1)
  }

  lemma DegreeSnoc(edges: seq<Edge>, e: Edge, user: nat, c: Counter)
    ensures Degree(edges + [e], user, c) == Degree(edges, user, c) + if EndOf(e, c) == user then 1 else 0
  {
    assert (edges + [e])[..|edges|] == edges;
  }

  function Into(edges: seq<Edge>, user: nat): set<nat> {
    set i: nat | i < |edges| && edges[i].following == user
  }

  function OutOf(edges: seq<Edge>, user: nat): set<nat> {
    set i: nat | i < |edges| && edges[i].follower == user
  }

  /** A user's followers are counted by the edges into the user. */
  lemma {:induction false} FollowersAreEdgesInto(edges: seq<Edge>, user: nat)
    ensures Degree(edges, user, FollowersCount) == |Into(edges, user)|
  {
    if edges == [] {
      assert Into(edges, user) == {};
    } else {
      var n := |edges| - 1;
      FollowersAreEdgesInto(edges[..n], user);
      var before := Into(edges[..n], user);
      if edges[n].following == user {
        assert Into(edges, user) == before + {n};
      } else {
        assert Into(edges, user) == before;
      }
    }
  }

  /** And those whom a user follows by the edges out of the user. */
  lemma {:induction false} FollowingAreEdgesOutOf(edges: seq<Edge>, user: nat)
    ensures Degree(edges, user, FollowingCount) == |OutOf(edges, user)|
  {
    if edges == [] {
      assert OutOf(edges, user) == {};
    } else {
      var n := |edges| - 1;
      FollowingAreEdgesOutOf(edges[..n], user);
      var before := OutOf(edges[..n], user);
      if edges[n].follower == user {
        assert OutOf(edges, user) == before + {n};
      } else {
        assert OutOf(edges, user) == before;
      }
    }
  }

  lemma {:induction false} RemoveCounts(edges: seq<Edge>, e: Edge, user: nat, c: Counter)
    requires e in edges
    ensures Degree(Remove(edges, e), user, c) == Degree(edges, user, c) - if EndOf(e, c) == user then 1 else 0
  {
    var n := |edges| - 1;
    if edges[n] != e {
      assert edges == edges[..n] + [edges[n]];
      RemoveCounts(edges[..n], e, user, c);
      DegreeSnoc(Remove(edges[..n], e), edges[n], user, c);
    }
  }

  lemma {:induction false} DegreeOfUnreferenced(edges: seq<Edge>, user: nat, c: Counter)
    requires forall e :: e in edges ==> e.follower != user && e.following != user
    ensures Degree(edges, user, c) == 0
  {
    if edges != [] {
      DegreeOfUnreferenced(edges[..|edges| - 1], user, c);
    }
  }

  lemma ApplyKeepsGraph(db: Db, e: Event)
    requires GraphInv(db)
    ensures GraphInv(Apply(db, e))
  {
    if e.EdgeDeleted? {
      RemoveKeepsUnique(db.edges, e.edge);
    }
  }

  lemma SettleKeepsLedger(db: Db, inc: Inc, user: nat, c: Counter)
    requires GraphInv(db) && InLedger(db, user, c)
    ensures InLedger(Settle(db, inc), user, c)
  {
    if inc in db.owed {
      var owed := db.owed - multiset{inc};
      assert inc.delta == 1 || inc.delta == -1;
      assert owed[Inc(user, c, 1)] == db.owed[Inc(user, c, 1)] - if inc == Inc(user, c, 1) then 1 else 0;
      assert owed[Inc(user, c, -1)] == db.owed[Inc(user, c, -1)] - if inc == Inc(user, c, -1) then 1 else 0;
    }
  }

  lemma InsertKeepsLedger(db: Db, e: Edge, user: nat, c: Counter)
    requires GraphInv(db) && InLedger(db, user, c)
    ensures InLedger(AddEdge(db, e), user, c)
  {
    DegreeSnoc(db.edges, e, user, c);
  }

  lemma DeleteKeepsLedger(db: Db, e: Edge, user: nat, c: Counter)
    requires GraphInv(db) && InLedger(db, user, c)
    ensures InLedger(DeleteEdge(db, e), user, c)
  {
    if e in db.edges {
      RemoveCounts(db.edges, e, user, c);
    }
  }

  lemma ApplyKeepsLedger(db: Db, e: Event, user: nat, c: Counter)
    requires GraphInv(db) && InLedger(db, user, c)
    ensures InLedger(Apply(db, e), user, c)
  {
    match e
    case UserCreated(u) =>
      if u == user && Unreferenced(db, u) {
        DegreeOfUnreferenced(db.edges, u, c);
      }
    case EdgeInserted(edge) => InsertKeepsLedger(db, edge, user, c);
    case EdgeDeleted(edge) => DeleteKeepsLedger(db, edge, user, c);
    case CounterUpdated(inc) => SettleKeepsLedger(db, inc, user, c);
  }

  lemma {:induction false} RunKeeps(events: seq<Event>, user: nat, c: Counter)
    ensures GraphInv(Run(events)) && InLedger(Run(events), user, c)
  {
    if events != [] {
      RunKeeps(events[..|events| - 1], user, c);
      ApplyKeepsGraph(Run(events[..|events| - 1]), events[|events| - 1]);
      ApplyKeepsLedger(Run(events[..|events| - 1]), events[|events| - 1], user, c);
    }
  }

  /** Over every interleaving of follows and unfollows, dead calls included: no self edge, no duplicate
      edge, and each stored counter differs from its degree by exactly what is owed to it, so that it is
      exact if and only if as many additions as subtractions are owed. */
  lemma CounterLedger(events: seq<Event>, user: nat, c: Counter)
    ensures
      var db := Run(events);
      && (forall i, j :: 0 <= i < j < |db.edges| ==> db.edges[i] != db.edges[j])
      && (forall e :: e in db.edges ==> e.follower != e.following)
      && (user in db.users ==>
            && db.users[user].Get(c) ==
                 Degree(db.edges, user, c) - db.owed[Inc(user, c, 1)] + db.owed[Inc(user, c, -1)]
            && (db.users[user].Get(c) == Degree(db.edges, user, c) <==>
                  db.owed[Inc(user, c, 1)] == db.owed[Inc(user, c, -1)]))
  {
    RunKeeps(events, user, c);
  }

  // ---------------------------------------------------------------- whole calls

  function Followed(db: Db, e: Edge): Db {
    Settle(Settle(AddEdge(db, e), Inc(e.follower, FollowingCount, 1)), Inc(e.following, FollowersCount, 1))
  }

  function Unfollowed(db: Db, e: Edge): Db {
    Settle(Settle(DeleteEdge(db, e), Inc(e.follower, FollowingCount, -1)), Inc(e.following, FollowersCount, -1))
  }

  /** Both counters of an edge changed by `delta`. */
  function Bump(users: map<nat, Counts>, e: Edge, delta: int): map<nat, Counts> {
    Update(Update(users, Inc(e.follower, FollowingCount, delta)), Inc(e.following, FollowersCount, delta))
  }

  lemma BumpCounts(users: map<nat, Counts>, e: Edge, delta: int, user: nat, c: Counter)
    requires e.follower != e.following
    ensures Bump(users, e, delta).Keys == users.Keys
    ensures user in users ==>
              Bump(users, e, delta)[user].Get(c) == users[user].Get(c) + if EndOf(e, c) == user then delta else 0
  {
  }

  lemma BumpBack(users: map<nat, Counts>, e: Edge)
    requires e.follower != e.following
    ensures Bump(Bump(users, e, 1), e, -1) == users
  {
    var there := Bump(users, e, 1);
    var back := Bump(there, e, -1);
    forall u | u in users
      ensures u in back && back[u] == users[u]
    {
      BumpCounts(users, e, 1, u, FollowersCount);
      BumpCounts(users, e, 1, u, FollowingCount);
      BumpCounts(there, e, -1, u, FollowersCount);
      BumpCounts(there, e, -1, u, FollowingCount);
      assert back[u].Get(FollowersCount) == users[u].Get(FollowersCount);
      assert back[u].Get(FollowingCount) == users[u].Get(FollowingCount);
    }
    BumpCounts(users, e, 1, 0, FollowersCount);
    BumpCounts(there, e, -1, 0, FollowersCount);
  }

  lemma SettleBoth(users: map<nat, Counts>, edges: seq<Edge>, e: Edge, delta: int)
    requires e.follower != e.following
    ensures
      var db := Db(users, edges, OwedFor(e, delta));
      Settle(Settle(db, Inc(e.follower, FollowingCount, delta)), Inc(e.following, FollowersCount, delta)) ==
      Db(Bump(users, e, delta), edges, multiset{})
  {
    var a, b := Inc(e.follower, FollowingCount, delta), Inc(e.following, FollowersCount, delta);
    assert multiset{a, b} - multiset{a} == multiset{b};
    assert multiset{b} - multiset{b} == multiset{};
  }

  lemma FollowedIs(db: Db, e: Edge)
    requires db.owed == multiset{}
    ensures Followed(db, e) == if e.follower == e.following || e in db.edges then db
                               else Db(Bump(db.users, e, 1), db.edges + [e], multiset{})
  {
    if e.follower != e.following && e !in db.edges {
      assert db.owed + OwedFor(e, 1) == OwedFor(e, 1);
      SettleBoth(db.users, db.edges + [e], e, 1);
    }
  }

  lemma UnfollowedIs(db: Db, e: Edge)
    requires db.owed == multiset{} && (e in db.edges ==> e.follower != e.following)
    ensures Unfollowed(db, e) == if e !in db.edges then db
                                 else Db(Bump(db.users, e, -1), Remove(db.edges, e), multiset{})
  {
    if e in db.edges {
      assert db.owed + OwedFor(e, -1) == OwedFor(e, -1);
      SettleBoth(db.users, Remove(db.edges, e), e, -1);
    }
  }

  /** An unfollow takes back a first follow completely; a second follow, and an unfollow of nobody, do
      nothing. */
  lemma UnfollowUndoesFollow(db: Db, e: Edge)
    requires db.owed == multiset{} && e.follower != e.following
    ensures e !in db.edges ==> Unfollowed(Followed(db, e), e) == db
    ensures Followed(Followed(db, e), e) == Followed(db, e)
    ensures e !in db.edges ==> Unfollowed(db, e) == db
  {
    FollowedIs(db, e);
    UnfollowedIs(db, e);
    FollowedIs(Followed(db, e), e);
    UnfollowedIs(Followed(db, e), e);
    BumpBack(db.users, e);
    assert (db.edges + [e])[..|db.edges|] == db.edges;
  }

  /** An edge more or less and both its counters changed by as much: exact counters stay exact. */
  lemma BumpKeepsExact(users: map<nat, Counts>, edges: seq<Edge>, edges': seq<Edge>, e: Edge, delta: int)
    requires e.follower != e.following && (delta == 1 || delta == -1)
    requires forall u, c :: u in users ==> users[u].Get(c) == Degree(edges, u, c)
    requires if delta == 1 then edges' == edges + [e] else e in edges && edges' == Remove(edges, e)
    ensures Bump(users, e, delta).Keys == users.Keys
    ensures forall u, c :: u in users ==> Bump(users, e, delta)[u].Get(c) == Degree(edges', u, c)
  {
    BumpCounts(users, e, delta, 0, FollowersCount);
    forall u, c | u in users
      ensures Bump(users, e, delta)[u].Get(c) == Degree(edges', u, c)
    {
      BumpCounts(users, e, delta, u, c);
      if delta == 1 {
        DegreeSnoc(edges, e, u, c);
      } else {
        RemoveCounts(edges, e, u, c);
      }
    }
  }

  class FollowsService {
    var users: map<nat, Counts>
    var edges: seq<Edge>

    constructor (users: map<nat, Counts>)
      requires forall u :: u in users ==> users[u] == Counts(0, 0)
      ensures this.users == users && edges == [] && Exact()
    {
      this.users, edges := users, [];
    }

    /** Between whole calls nothing is owed. */
    ghost function View(): Db
      reads this
    {
      Db(users, edges, multiset{})
    }

    /** Unique edges, no self edges, and counters that are the degrees. */
    ghost predicate Exact()
      reads this
    {
      && GraphInv(View())
      && (forall u, c :: u in users ==> users[u].Get(c) == Degree(edges, u, c))
    }

    method IsFollowing(follower: nat, following: nat) returns (r: bool)
      ensures r <==> Edge(follower, following) in edges
    {
      r := Edge(follower, following) in edges;
    }

    /** Fails only on a self-follow; a repeated follow is a quiet success. */
    method Follow(follower: nat, following: nat) returns (r: Result<bool, string>)
      requires Exact()
      modifies this
      ensures Exact()
      ensures r.Err? <==> follower == following
      ensures r.Err? ==> View() == old(View())
      ensures r.Ok? ==> r.value == (Edge(follower, following) !in old(edges)) && users.Keys == old(users).Keys
                        && edges == if r.value then old(edges) + [Edge(follower, following)] else old(edges)
      ensures View() == Followed(old(View()), Edge(follower, following))
      ensures follower != following ==> forall e :: e in edges <==> e in old(edges) || e == Edge(follower, following)
    {
      if follower == following {
        return Err("You cannot follow yourself.");
      }
      var e := Edge(follower, following);
      if e in edges {
        return Ok(false);
      }
      FollowedIs(View(), e);
      BumpKeepsExact(users, edges, edges + [e], e, 1);
      edges := edges + [e];
      users := Update(users, Inc(follower, FollowingCount, 1));
      users := Update(users, Inc(following, FollowersCount, 1));
      assert users == Bump(old(users), e, 1);
      r := Ok(true);
    }

    method Unfollow(follower: nat, following: nat)
      requires Exact()
      modifies this
      ensures Exact()
      ensures View() == Unfollowed(old(View()), Edge(follower, following))
      ensures users.Keys == old(users).Keys && (Edge(follower, following) !in old(edges) ==> View() == old(View()))
      ensures forall e :: e in edges <==> e in old(edges) && e != Edge(follower, following)
    {
      var e := Edge(follower, following);
      if e !in edges {
        return;
      }
      UnfollowedIs(View(), e);
      RemoveKeepsUnique(edges, e);
      BumpKeepsExact(users, edges, Remove(edges, e), e, -1);
      edges := Remove(edges, e);
      users := Update(users, Inc(follower, FollowingCount, -1));
      users := Update(users, Inc(following, FollowersCount, -1));
      assert users == Bump(old(users), e, -1);
    }
  }
}
