/** Likes: a lookup, a unique insert, a counter update and a notification, interleaved freely. */
module Likes {
  import opened Common

  datatype Post = Post(author: nat, likeCount: int)

  datatype Like = Like(user: nat, post: nat)

  datatype Notification = Notification(to: nat, post: nat)

  /** What a like or unlike still has to do: insert after its lookup found the post, count, notify, or
      count back. */
  datatype Task =
    | Insert(like: Like, author: nat)
    | Count(post: nat, notify: Option<nat>)
    | Notify(post: nat, author: nat)
    | Uncount(post: nat)

  /** The collections, the unfinished tasks, and the history of likes created by other people than the
      author of the post. */
  datatype Db = Db(
    posts: map<nat, Post>,
    likes: seq<Like>,
    tasks: multiset<Task>,
    fired: seq<Notification>,
    byOthers: seq<Like>)

  function LikesOn(likes: seq<Like>, post: nat): nat {
    if likes == [] then 0
    else LikesOn(likes[..|likes| - 1], post) + if likes[|likes| - 1].post == post then 1 else 0
  }

  function FiredOn(fired: seq<Notification>, post: nat): nat {
    if fired == [] then 0
    else FiredOn(fired[..|fired| - 1], post) + if fired[|fired| - 1].post == post then 1 else 0
  }

  function Recount(posts: map<nat, Post>, post: nat, delta: int): map<nat, Post> {
    if post in posts then posts[post := posts[post].(likeCount := posts[post].likeCount + delta)] else posts
  }

  function LookUp(db: Db, l: Like): Result<Db, string> {
    if l.post !in db.posts then Err("Post not found.")
    else Ok(db.(tasks := db.tasks + multiset{Insert(l, db.posts[l.post].author)}))
  }

  /** What a task leaves to be done after it. */
  function NextOf(db: Db, t: Task): Option<Task> {
    match t
    case Insert(l, author) =>
      if l in db.likes then None
      else Some(Count(l.post, if l.user == author then None else Some(author)))
    case Count(post, notify) => if notify.Some? then Some(Notify(post, notify.value)) else None
    case Notify(_, _) => None
    case Uncount(_) => None
  }

  /** The next step of one task. */
  function Do(db: Db, t: Task): Db {
    if t !in db.tasks then db
    else
      var db1 := db.(tasks := Proceed(db.tasks, t, NextOf(db, t)));
      match t
      case Insert(l, author) =>
        if l in db.likes then db1
        else db1.(likes := db.likes + [l], byOthers := if l.user == author then db.byOthers else db.byOthers + [l])
      case Count(post, _) => db1.(posts := Recount(db.posts, post, 1))
      case Notify(post, author) => db1.(fired := db.fired + [Notification(author, post)])
      case Uncount(post) => db1.(posts := Recount(db.posts, post, -1))
  }

  function DeleteLike(db: Db, l: Like): Db {
    if l !in db.likes then db
    else db.(likes := Remove(db.likes, l), tasks := db.tasks + multiset{Uncount(l.post)})
  }

  datatype Event =
    | PostCreated(post: nat, author: nat)
    | LikeCalled(like: Like)
    | TaskRun(task: Task)
    | UnlikeCalled(like: Like)

  function Apply(db: Db, e: Event): Db {
    match e
    case PostCreated(p, author) => if p in db.posts then db else db.(posts := db.posts[p := Post(author, 0)])
    case LikeCalled(l) => (match LookUp(db, l) case Ok(db') => db' case Err(_) => db)
    case TaskRun(t) => Do(db, t)
    case UnlikeCalled(l) => DeleteLike(db, l)
  }

  const EMPTY := Db(map[], [], multiset{}, [], [])

  function Run(events: seq<Event>): Db {
    if events == [] then EMPTY
    else Apply(Run(events[..|events| - 1]), events[|events| - 1])
  }

  predicate TaskInv(posts: map<nat, Post>, t: Task) {
    match t
    case Insert(l, author) => l.post in posts && posts[l.post].author == author
    case Count(p, notify) => p in posts && (notify.Some? ==> notify.value == posts[p].author)
    case Notify(p, author) => p in posts && posts[p].author == author
    case Uncount(p) => p in posts
  }

  ghost predicate Inv(db: Db) {
    && (forall i, j :: 0 <= i < j < |db.likes| ==> db.likes[i] != db.likes[j])
    && (forall l :: l in db.likes ==> l.post in db.posts)
    && (forall t :: t in db.tasks ==> TaskInv(db.posts, t))
    && (forall n :: n in db.fired ==> n.post in db.posts && n.to == db.posts[n.post].author)
    && (forall l :: l in db.byOthers ==> l.post in db.posts && l.user != db.posts[l.post].author)
  }

  /** How many likes of the post are inserted but not counted. */
  function Uncounted(db: Db, p: nat): nat
    requires p in db.posts
  {
    db.tasks[Count(p, None)] + db.tasks[Count(p, Some(db.posts[p].author))]
  }

  /** How many of those by other people are not yet notified. */
  function Unnotified(db: Db, p: nat): nat
    requires p in db.posts
  {
    db.tasks[Count(p, Some(db.posts[p].author))] + db.tasks[Notify(p, db.posts[p].author)]
  }

  ghost predicate CountInLedger(db: Db, p: nat) {
    p in db.posts ==> db.posts[p].likeCount == LikesOn(db.likes, p) - Uncounted(db, p) + db.tasks[Uncount(p)]
  }

  ghost predicate FiredInLedger(db: Db, p: nat) {
    p in db.posts ==> FiredOn(db.fired, p) == LikesOn(db.byOthers, p) - Unnotified(db, p)
  }

  ghost predicate InLedger(db: Db, p: nat) {
    CountInLedger(db, p) && FiredInLedger(db, p)
  }

  lemma LikesSnoc(likes: seq<Like>, l: Like, p: nat)
    ensures LikesOn(likes + [l], p) == LikesOn(likes, p) + if l.post == p then 1 else 0
  {
    assert (likes + [l])[..|likes|] == likes;
  }

  lemma FiredSnoc(fired: seq<Notification>, n: Notification, p: nat)
    ensures FiredOn(fired + [n], p) == FiredOn(fired, p) + if n.post == p then 1 else 0
  {
    assert (fired + [n])[..|fired|] == fired;
  }

  function OnPost(likes: seq<Like>, p: nat): set<nat> {
    set i: nat | i < |likes| && likes[i].post == p
  }

  lemma {:induction false} LikesOnIsCount(likes: seq<Like>, p: nat)
    ensures LikesOn(likes, p) == |OnPost(likes, p)|
  {
    if likes == [] {
      assert OnPost(likes, p) == {};
    } else {
      var n := |likes| - 1;
      LikesOnIsCount(likes[..n], p);
      if likes[n].post == p {
        assert OnPost(likes, p) == OnPost(likes[..n], p) + {n};
      } else {
        assert OnPost(likes, p) == OnPost(likes[..n], p);
      }
    }
  }

  lemma {:induction false} RemoveCounts(likes: seq<Like>, l: Like, p: nat)
    requires l in likes
    ensures LikesOn(Remove(likes, l), p) == LikesOn(likes, p) - if l.post == p then 1 else 0
  {
    var n := |likes| - 1;
    if likes[n] != l {
      assert likes == likes[..n] + [likes[n]];
      RemoveCounts(likes[..n], l, p);
      LikesSnoc(Remove(likes[..n], l), likes[n], p);
    }
  }

  lemma {:induction false} NoneOn(likes: seq<Like>, fired: seq<Notification>, p: nat)
    requires forall l :: l in likes ==> l.post != p
    requires forall n :: n in fired ==> n.post != p
    ensures LikesOn(likes, p) == 0 && FiredOn(fired, p) == 0
    decreases |likes| + |fired|
  {
    if likes != [] {
      NoneOn(likes[..|likes| - 1], fired, p);
    } else if fired != [] {
      NoneOn(likes, fired[..|fired| - 1], p);
    }
  }

  lemma ProceedKeepsTasks(posts: map<nat, Post>, tasks: multiset<Task>, done: Task, next: Option<Task>)
    requires done in tasks && forall t :: t in tasks ==> TaskInv(posts, t)
    requires next.Some? ==> TaskInv(posts, next.value)
    ensures forall t :: t in Proceed(tasks, done, next) ==> TaskInv(posts, t)
  {
    forall t | t in Proceed(tasks, done, next)
      ensures TaskInv(posts, t)
    {
      ProceedCounts(tasks, done, next, t);
    }
  }

  lemma RecountKeepsTasks(posts: map<nat, Post>, p: nat, delta: int, tasks: multiset<Task>)
    requires forall t :: t in tasks ==> TaskInv(posts, t)
    ensures forall t :: t in tasks ==> TaskInv(Recount(posts, p, delta), t)
  {
    forall t | t in tasks
      ensures TaskInv(Recount(posts, p, delta), t)
    {
      assert TaskInv(posts, t);
    }
  }

  lemma DoKeepsInv(db: Db, t: Task)
    requires Inv(db)
    ensures Inv(Do(db, t))
  {
    if t in db.tasks {
      assert TaskInv(db.posts, t);
      ProceedKeepsTasks(db.posts, db.tasks, t, NextOf(db, t));
      var delta := if t.Uncount? then -1 else 1;
      match t
      case Count(p, _) => RecountKeepsTasks(db.posts, p, delta, Proceed(db.tasks, t, NextOf(db, t)));
      case Uncount(p) => RecountKeepsTasks(db.posts, p, delta, Proceed(db.tasks, t, NextOf(db, t)));
      case _ =>
    }
  }

  lemma ApplyKeepsInv(db: Db, e: Event)
    requires Inv(db)
    ensures Inv(Apply(db, e))
  {
    match e
    case PostCreated(p, author) =>
      var db' := Apply(db, e);
      assert forall t :: t in db.tasks && TaskInv(db.posts, t) ==> TaskInv(db'.posts, t);
    case LikeCalled(l) =>
    case TaskRun(t) => DoKeepsInv(db, t);
    case UnlikeCalled(l) => RemoveKeepsUnique(db.likes, l);
  }

  /** What one task does to the multiplicities that the ledger of a post looks at. */
  lemma LedgerTasks(db: Db, t: Task, p: nat)
    requires t in db.tasks && p in db.posts
    ensures
      var next := NextOf(db, t);
      var tasks := Proceed(db.tasks, t, next);
      var notify := Some(db.posts[p].author);
      && tasks[Count(p, None)] == db.tasks[Count(p, None)] - Is(Some(t), Count(p, None)) + Is(next, Count(p, None))
      && tasks[Count(p, notify)] ==
           db.tasks[Count(p, notify)] - Is(Some(t), Count(p, notify)) + Is(next, Count(p, notify))
      && tasks[Notify(p, db.posts[p].author)] ==
           db.tasks[Notify(p, db.posts[p].author)]
           - Is(Some(t), Notify(p, db.posts[p].author)) + Is(next, Notify(p, db.posts[p].author))
      && tasks[Uncount(p)] == db.tasks[Uncount(p)] - Is(Some(t), Uncount(p)) + Is(next, Uncount(p))
  {
    var next := NextOf(db, t);
    ProceedCounts(db.tasks, t, next, Count(p, None));
    ProceedCounts(db.tasks, t, next, Count(p, Some(db.posts[p].author)));
    ProceedCounts(db.tasks, t, next, Notify(p, db.posts[p].author));
    ProceedCounts(db.tasks, t, next, Uncount(p));
  }

  function Is(o: Option<Task>, t: Task): nat {
    if o == Some(t) then 1 else 0
  }

  lemma InsertKeepsCount(db: Db, t: Task, p: nat)
    requires TaskInv(db.posts, t) && CountInLedger(db, p) && t in db.tasks && p in db.posts && t.Insert?
    ensures CountInLedger(Do(db, t), p)
  {
    LedgerTasks(db, t, p);
    LikesSnoc(db.likes, t.like, p);
  }

  lemma InsertKeepsFired(db: Db, t: Task, p: nat)
    requires TaskInv(db.posts, t) && FiredInLedger(db, p) && t in db.tasks && p in db.posts && t.Insert?
    ensures FiredInLedger(Do(db, t), p)
  {
    LedgerTasks(db, t, p);
    LikesSnoc(db.byOthers, t.like, p);
  }

  lemma CountKeepsLedger(db: Db, t: Task, p: nat)
    requires TaskInv(db.posts, t) && InLedger(db, p) && t in db.tasks && p in db.posts && (t.Count? || t.Uncount?)
    ensures InLedger(Do(db, t), p)
  {
    LedgerTasks(db, t, p);
  }

  lemma NotifyKeepsLedger(db: Db, t: Task, p: nat)
    requires TaskInv(db.posts, t) && InLedger(db, p) && t in db.tasks && p in db.posts && t.Notify?
    ensures InLedger(Do(db, t), p)
  {
    LedgerTasks(db, t, p);
    FiredSnoc(db.fired, Notification(t.author, t.post), p);
  }

  lemma DeleteKeepsLedger(db: Db, l: Like, p: nat)
    requires InLedger(db, p)
    ensures InLedger(DeleteLike(db, l), p)
  {
    if l in db.likes {
      RemoveCounts(db.likes, l, p);
    }
  }

  lemma FreshPostInLedger(db: Db, p: nat, author: nat)
    requires Inv(db) && p !in db.posts
    ensures InLedger(Apply(db, PostCreated(p, author)), p)
  {
    NoneOn(db.likes, db.fired, p);
    NoneOn(db.byOthers, db.fired, p);
    forall t | t in db.tasks
      ensures t != Count(p, None) && t != Count(p, Some(author)) && t != Notify(p, author) && t != Uncount(p)
    {
      assert TaskInv(db.posts, t);
    }
  }

  lemma ApplyKeepsLedger(db: Db, e: Event, p: nat)
    requires Inv(db) && InLedger(db, p)
    ensures InLedger(Apply(db, e), p)
  {
    match e
    case PostCreated(q, author) =>
      if q == p && p !in db.posts {
        FreshPostInLedger(db, p, author);
      }
    case LikeCalled(l) =>
    case TaskRun(t) =>
      if t in db.tasks && p in db.posts {
        assert TaskInv(db.posts, t);
        match t
        case Insert(_, _) =>
          InsertKeepsCount(db, t, p);
          InsertKeepsFired(db, t, p);
        case Notify(_, _) => NotifyKeepsLedger(db, t, p);
        case _ => CountKeepsLedger(db, t, p);
      }
    case UnlikeCalled(l) => DeleteKeepsLedger(db, l, p);
  }

  lemma {:induction false} RunKeeps(events: seq<Event>, p: nat)
    ensures Inv(Run(events)) && InLedger(Run(events), p)
  {
    if events != [] {
      RunKeeps(events[..|events| - 1], p);
      ApplyKeepsInv(Run(events[..|events| - 1]), events[|events| - 1]);
      ApplyKeepsLedger(Run(events[..|events| - 1]), events[|events| - 1], p);
    }
  }

  /** However often likes and unlikes are repeated, raced or cut short: nobody likes a post twice, the
      stored count differs from the number of likes by exactly the counter updates still to run, and the
      notifications fired, all to the author, are the likes ever created by other people, less those
      still to be notified. */
  lemma LikeLedger(events: seq<Event>, p: nat)
    ensures
      var db := Run(events);
      && (forall i, j :: 0 <= i < j < |db.likes| ==> db.likes[i] != db.likes[j])
      && (p in db.posts ==>
            && db.posts[p].likeCount == LikesOn(db.likes, p) - Uncounted(db, p) + db.tasks[Uncount(p)]
            && FiredOn(db.fired, p) == LikesOn(db.byOthers, p) - Unnotified(db, p))
      && (forall n :: n in db.fired ==> n.post in db.posts && n.to == db.posts[n.post].author)
      && (forall l :: l in db.byOthers ==> l.post in db.posts && l.user != db.posts[l.post].author)
  {
    RunKeeps(events, p);
  }

  // ---------------------------------------------------------------- whole calls

  class PostsService {
    var posts: map<nat, Post>
    var likes: seq<Like>
    var fired: seq<Notification>

    constructor (posts: map<nat, Post>)
      requires forall p :: p in posts ==> posts[p].likeCount == 0
      ensures this.posts == posts && likes == [] && fired == [] && Exact()
    {
      this.posts, likes, fired := posts, [], [];
    }

    /** Between whole calls every stored count is the number of likes. */
    ghost predicate Exact()
      reads this
    {
      && (forall i, j :: 0 <= i < j < |likes| ==> likes[i] != likes[j])
      && (forall p :: p in posts ==> posts[p].likeCount == LikesOn(likes, p))
    }

    method LikePost(user: nat, post: nat) returns (r: Result<bool, string>)
      requires Exact()
      modifies this
      ensures Exact()
      ensures r.Err? <==> post !in old(posts)
      ensures r.Ok? ==> r.value == (Like(user, post) !in old(likes))
      ensures forall p :: p in old(posts) && p != post ==> p in posts && posts[p] == old(posts)[p]
      ensures posts.Keys == old(posts).Keys && forall p :: p in posts ==> posts[p].author == old(posts)[p].author
      ensures likes == if post in old(posts) && Like(user, post) !in old(likes)
                       then old(likes) + [Like(user, post)] else old(likes)
      ensures fired == if post in old(posts) && Like(user, post) !in old(likes) && old(posts)[post].author != user
                       then old(fired) + [Notification(old(posts)[post].author, post)] else old(fired)
    {
      if post !in posts {
        return Err("Post not found.");
      }
      var author := posts[post].author;
      var l := Like(user, post);
      if l in likes {
        return Ok(false);
      }
      likes := likes + [l];
      posts := Recount(posts, post, 1);
      if author != user {
        fired := fired + [Notification(author, post)];
      }
      forall p: nat
        ensures LikesOn(likes, p) == LikesOn(old(likes), p) + if post == p then 1 else 0
      {
        LikesSnoc(old(likes), l, p);
      }
      r := Ok(true);
    }

    method UnlikePost(user: nat, post: nat)
      requires Exact()
      modifies this`posts, this`likes
      ensures Exact()
      ensures posts.Keys == old(posts).Keys && forall p :: p in posts ==> posts[p].author == old(posts)[p].author
      ensures forall l :: l in likes <==> l in old(likes) && l != Like(user, post)
    {
      var l := Like(user, post);
      if l !in likes {
        return;
      }
      likes := Remove(likes, l);
      posts := Recount(posts, post, -1);
      RemoveKeepsUnique(old(likes), l);
      forall p: nat
        ensures LikesOn(likes, p) == LikesOn(old(likes), p) - if post == p then 1 else 0
      {
        RemoveCounts(old(likes), l, p);
      }
    }
  }
}
