/** Requests to join a peer trek, and the conversation that an accepted request opens. Every database
    command of a call is a step of its own, so calls overlap freely and may stop half way. */
module JoinRequests {
  import opened Common

  predicate IsObjectId(s: string) {
    |s| == 24 && forall c :: c in s ==> '0' <= c <= '9' || 'a' <= c <= 'f'
  }

  type ObjectId = s: string | IsObjectId(s) witness "000000000000000000000000"

  // ---------------------------------------------------------------- the key of a pair

  /** The order of a plain array sort: code unit by code unit, a prefix first. */
  predicate NotAfter(a: string, b: string) {
    a == "" || (b != "" && (a[0] < b[0] || (a[0] == b[0] && NotAfter(a[1..], b[1..]))))
  }

  function PairKey(a: ObjectId, b: ObjectId): string {
    if NotAfter(a, b) then a + "_" + b else b + "_" + a
  }

  lemma {:induction false} OrderIsTotal(a: string, b: string)
    ensures NotAfter(a, b) || NotAfter(b, a)
    ensures NotAfter(a, b) && NotAfter(b, a) ==> a == b
  {
    if a != "" && b != "" && a[0] == b[0] {
      OrderIsTotal(a[1..], b[1..]);
      assert a == [a[0]] + a[1..] && b == [b[0]] + b[1..];
    }
  }

  /** Two pairs share a key exactly when they are the same two people, in whatever order. */
  lemma KeyIdentifiesPair(a: ObjectId, b: ObjectId, c: ObjectId, d: ObjectId)
    ensures PairKey(a, b) == PairKey(c, d) <==> (a == c && b == d) || (a == d && b == c)
  {
    OrderIsTotal(a, b);
    OrderIsTotal(c, d);
    if PairKey(a, b) == PairKey(c, d) {
      var first, second := if NotAfter(a, b) then a else b, if NotAfter(a, b) then b else a;
      var first', second' := if NotAfter(c, d) then c else d, if NotAfter(c, d) then d else c;
      assert '_' !in first && '_' !in first';
      SeparatorSplits(first, second, first', second', '_');
    }
  }

  // ---------------------------------------------------------------- the collections

  datatype Status = Pending | Accepted | Declined

  /** A removed trek keeps its place, so that its organizer can still be named; no lookup finds it. */
  datatype Trek = Trek(organizer: ObjectId, peer: bool, removed: bool)

  datatype Request = Request(trek: nat, requester: ObjectId, status: Status)

  datatype Conversation = Conversation(one: ObjectId, other: ObjectId, key: string)

  datatype Kind = Asked | WasAccepted | WasDeclined

  datatype Notification = Notification(to: ObjectId, request: nat, kind: Kind)

  datatype Error = NotFound(message: string) | BadRequest(message: string) | Forbidden | Conflict

  predicate Duplicate(requests: seq<Request>, trek: nat, requester: ObjectId) {
    exists i :: 0 <= i < |requests| && requests[i].trek == trek && requests[i].requester == requester
  }

  predicate KeyIn(conversations: seq<Conversation>, key: string) {
    exists i :: 0 <= i < |conversations| && conversations[i].key == key
  }

  predicate Between(c: Conversation, a: ObjectId, b: ObjectId) {
    (c.one == a && c.other == b) || (c.one == b && c.other == a)
  }

  ghost predicate CanTalk(conversations: seq<Conversation>, a: ObjectId, b: ObjectId) {
    exists i :: 0 <= i < |conversations| && Between(conversations[i], a, b)
  }

  function Organizer(treks: seq<Trek>, r: Request): ObjectId
    requires r.trek < |treks|
  {
    treks[r.trek].organizer
  }

  // ---------------------------------------------------------------- calls, one command at a time

  datatype Answer = Accept | Decline

  /** What a call still has to do. `Authorize` and `Save` carry the status that was read with the request,
      because a save writes only what differs from it. */
  datatype Task =
    | InsertRequest(trek: nat, requester: ObjectId, organizer: ObjectId)
    | Authorize(answer: Answer, caller: ObjectId, id: nat, read: Request)
    | Save(answer: Answer, caller: ObjectId, id: nat, read: Request)
    | FindConversation(caller: ObjectId, requester: ObjectId, id: nat)
    | CreateConversation(caller: ObjectId, requester: ObjectId, id: nat)
    | Notify(n: Notification)

  datatype Db = Db(
    treks: seq<Trek>,
    requests: seq<Request>,
    conversations: seq<Conversation>,
    tasks: multiset<Task>,
    fired: seq<Notification>)

  function StatusOf(answer: Answer): Status {
    match answer
    case Accept => Accepted
    case Decline => Declined
  }

  function Saved(requests: seq<Request>, id: nat, read: Request, status: Status): seq<Request> {
    if id < |requests| && read.status != status then requests[id := requests[id].(status := status)] else requests
  }

  /** What a task leaves to be done after it. */
  function NextOf(db: Db, t: Task): Option<Task> {
    match t
    case InsertRequest(trek, requester, organizer) =>
      if Duplicate(db.requests, trek, requester) then None
      else Some(Notify(Notification(organizer, |db.requests|, Asked)))
    case Authorize(answer, caller, id, read) =>
      if read.trek < |db.treks| && !db.treks[read.trek].removed && db.treks[read.trek].organizer == caller
      then Some(Save(answer, caller, id, read)) else None
    case Save(answer, caller, id, read) =>
      if answer.Accept? then Some(FindConversation(caller, read.requester, id))
      else Some(Notify(Notification(read.requester, id, WasDeclined)))
    case FindConversation(caller, requester, id) =>
      if KeyIn(db.conversations, PairKey(caller, requester))
      then Some(Notify(Notification(requester, id, WasAccepted)))
      else Some(CreateConversation(caller, requester, id))
    case CreateConversation(caller, requester, id) =>
      if KeyIn(db.conversations, PairKey(caller, requester)) then None
      else Some(Notify(Notification(requester, id, WasAccepted)))
    case Notify(_) => None
  }

  function Opened(conversations: seq<Conversation>, a: ObjectId, b: ObjectId): seq<Conversation> {
    if KeyIn(conversations, PairKey(a, b)) then conversations
    else conversations + [Conversation(a, b, PairKey(a, b))]
  }

  /** The next command of one call. */
  function Do(db: Db, t: Task): Db {
    if t !in db.tasks then db
    else
      var db1 := db.(tasks := Proceed(db.tasks, t, NextOf(db, t)));
      match t
      case InsertRequest(trek, requester, _) =>
        if Duplicate(db.requests, trek, requester) then db1
        else db1.(requests := db.requests + [Request(trek, requester, Pending)])
      case Authorize(_, _, _, _) => db1
      case Save(answer, _, id, read) => db1.(requests := Saved(db.requests, id, read, StatusOf(answer)))
      case FindConversation(_, _, _) => db1
      case CreateConversation(caller, requester, _) =>
        db1.(conversations := Opened(db.conversations, caller, requester))
      case Notify(n) => db1.(fired := db.fired + [n])
  }

  datatype Event =
    | TrekCreated(organizer: ObjectId, peer: bool)
    | TrekRemoved(trek: nat)
    | CreateCalled(requester: ObjectId, trek: nat)
    | AnswerCalled(answer: Answer, caller: ObjectId, id: nat)
    | TaskRun(task: Task)

  function CheckCreate(treks: seq<Trek>, requester: ObjectId, trek: nat): Option<Error> {
    if trek >= |treks| || treks[trek].removed then Some(NotFound("Trek not found."))
    else if !treks[trek].peer then Some(BadRequest("Join requests only apply to peer treks."))
    else if treks[trek].organizer == requester then Some(BadRequest("You cannot request to join your own trek."))
    else None
  }

  function Apply(db: Db, e: Event): Db {
    match e
    case TrekCreated(organizer, peer) => db.(treks := db.treks + [Trek(organizer, peer, false)])
    case TrekRemoved(t) =>
      if t < |db.treks| then db.(treks := db.treks[t := db.treks[t].(removed := true)]) else db
    case CreateCalled(requester, t) =>
      if CheckCreate(db.treks, requester, t).Some? then db
      else db.(tasks := db.tasks + multiset{InsertRequest(t, requester, db.treks[t].organizer)})
    case AnswerCalled(answer, caller, id) =>
      if id >= |db.requests| then db
      else db.(tasks := db.tasks + multiset{Authorize(answer, caller, id, db.requests[id])})
    case TaskRun(t) => Do(db, t)
  }

  const EMPTY := Db([], [], [], multiset{}, [])

  function Run(events: seq<Event>): Db {
    if events == [] then EMPTY
    else Apply(Run(events[..|events| - 1]), events[|events| - 1])
  }

  // ---------------------------------------------------------------- the invariant

  predicate RequestInv(treks: seq<Trek>, r: Request) {
    r.trek < |treks| && treks[r.trek].peer && r.requester != treks[r.trek].organizer
  }

  ghost predicate RequestsInv(treks: seq<Trek>, requests: seq<Request>) {
    && (forall i :: 0 <= i < |requests| ==> RequestInv(treks, requests[i]))
    && (forall i, j :: 0 <= i < j < |requests| ==>
          requests[i].trek != requests[j].trek || requests[i].requester != requests[j].requester)
  }

  ghost predicate ConversationsInv(conversations: seq<Conversation>) {
    && (forall i :: 0 <= i < |conversations| ==>
          conversations[i].key == PairKey(conversations[i].one, conversations[i].other)
          && conversations[i].one != conversations[i].other)
    && (forall i, j :: 0 <= i < j < |conversations| ==> conversations[i].key != conversations[j].key)
  }

  /** A caller who passed the ownership check, and the request as it was read. */
  predicate Owned(treks: seq<Trek>, requests: seq<Request>, caller: ObjectId, requester: ObjectId, id: nat) {
    id < |requests| && requests[id].requester == requester
    && requests[id].trek < |treks| && treks[requests[id].trek].organizer == caller
  }

  /** It goes to the organizer if somebody has asked, and else to the one who asked; and an acceptance is
      told only when the conversation is there. */
  ghost predicate NotificationInv(db: Db, n: Notification) {
    && n.request < |db.requests|
    && var r := db.requests[n.request];
       && r.trek < |db.treks|
       && n.to == (if n.kind == Asked then Organizer(db.treks, r) else r.requester)
       && (n.kind == WasAccepted ==> KeyIn(db.conversations, PairKey(Organizer(db.treks, r), n.to)))
  }

  ghost predicate TaskInv(db: Db, t: Task) {
    match t
    case InsertRequest(trek, requester, organizer) =>
      RequestInv(db.treks, Request(trek, requester, Pending)) && db.treks[trek].organizer == organizer
    case Authorize(_, _, id, read) =>
      id < |db.requests| && db.requests[id].trek == read.trek && db.requests[id].requester == read.requester
    case Save(_, caller, id, read) => Owned(db.treks, db.requests, caller, read.requester, id)
    case FindConversation(caller, requester, id) => Owned(db.treks, db.requests, caller, requester, id)
    case CreateConversation(caller, requester, id) => Owned(db.treks, db.requests, caller, requester, id)
    case Notify(n) => NotificationInv(db, n)
  }

  /** An accept that has saved its answer and not yet found or made the conversation. */
  predicate StillOpening(tasks: multiset<Task>, organizer: ObjectId, requester: ObjectId, id: nat) {
    || FindConversation(organizer, requester, id) in tasks
    || CreateConversation(organizer, requester, id) in tasks
  }

  ghost predicate AcceptInv(db: Db, id: nat)
    requires id < |db.requests| && db.requests[id].trek < |db.treks|
  {
    var r := db.requests[id];
    r.status == Accepted ==>
      || KeyIn(db.conversations, PairKey(Organizer(db.treks, r), r.requester))
      || StillOpening(db.tasks, Organizer(db.treks, r), r.requester, id)
  }

  ghost predicate Inv(db: Db) {
    && RequestsInv(db.treks, db.requests)
    && ConversationsInv(db.conversations)
    && (forall t :: t in db.tasks ==> TaskInv(db, t))
    && (forall n :: n in db.fired ==> NotificationInv(db, n))
    && (forall i :: 0 <= i < |db.requests| ==> AcceptInv(db, i))
  }

  // ---------------------------------------------------------------- what a step keeps

  /** The collections only grow: nothing that was settled about them is undone. */
  ghost predicate Extends(db: Db, db': Db) {
    && |db.treks| <= |db'.treks| && |db.requests| <= |db'.requests|
    && (forall i :: 0 <= i < |db.treks| ==>
          db'.treks[i].organizer == db.treks[i].organizer && db'.treks[i].peer == db.treks[i].peer)
    && (forall i :: 0 <= i < |db.requests| ==>
          db'.requests[i].trek == db.requests[i].trek && db'.requests[i].requester == db.requests[i].requester)
    && (forall key :: KeyIn(db.conversations, key) ==> KeyIn(db'.conversations, key))
  }

  lemma KeysStay(conversations: seq<Conversation>, more: seq<Conversation>)
    requires conversations <= more
    ensures forall key :: KeyIn(conversations, key) ==> KeyIn(more, key)
  {
    forall key | KeyIn(conversations, key)
      ensures KeyIn(more, key)
    {
      var i :| 0 <= i < |conversations| && conversations[i].key == key;
      assert more[i].key == key;
    }
  }

  lemma DoExtends(db: Db, t: Task)
    ensures Extends(db, Do(db, t))
  {
    KeysStay(db.conversations, Do(db, t).conversations);
  }

  lemma ApplyExtends(db: Db, e: Event)
    ensures Extends(db, Apply(db, e))
  {
    match e
    case TaskRun(t) => DoExtends(db, t);
    case _ =>
  }

  lemma ExtensionKeepsTask(db: Db, db': Db, t: Task)
    requires Extends(db, db') && TaskInv(db, t)
    ensures TaskInv(db', t)
  {
  }

  lemma KeyOpened(conversations: seq<Conversation>, a: ObjectId, b: ObjectId)
    ensures KeyIn(Opened(conversations, a, b), PairKey(a, b))
  {
    if !KeyIn(conversations, PairKey(a, b)) {
      assert Opened(conversations, a, b)[|conversations|].key == PairKey(a, b);
    }
  }

  lemma NextKeepsTaskInv(db: Db, t: Task)
    requires t in db.tasks && TaskInv(db, t) && NextOf(db, t).Some?
    ensures TaskInv(Do(db, t), NextOf(db, t).value)
  {
    if t.CreateConversation? {
      KeyOpened(db.conversations, t.caller, t.requester);
    }
  }

  /** Everything that is still to be done keeps its footing. */
  lemma ApplyKeepsTask(db: Db, e: Event, t: Task)
    requires t in Apply(db, e).tasks
    requires t in db.tasks ==> TaskInv(db, t)
    requires e.TaskRun? && e.task in db.tasks ==> TaskInv(db, e.task)
    ensures TaskInv(Apply(db, e), t)
  {
    if t in db.tasks {
      ApplyExtends(db, e);
      ExtensionKeepsTask(db, Apply(db, e), t);
    } else if e.TaskRun? && e.task in db.tasks {
      ProceedCounts(db.tasks, e.task, NextOf(db, e.task), t);
      NextKeepsTaskInv(db, e.task);
    }
  }

  /** So does everything that was announced. */
  lemma ApplyKeepsFired(db: Db, e: Event, n: Notification)
    requires n in Apply(db, e).fired
    requires n in db.fired ==> NotificationInv(db, n)
    requires forall t :: t in db.tasks ==> TaskInv(db, t)
    ensures NotificationInv(Apply(db, e), n)
  {
    ApplyExtends(db, e);
    if n !in db.fired {
      assert TaskInv(db, Notify(n));
    }
  }

  lemma InsertKeepsRequests(db: Db, trek: nat, requester: ObjectId)
    requires RequestsInv(db.treks, db.requests) && RequestInv(db.treks, Request(trek, requester, Pending))
    requires !Duplicate(db.requests, trek, requester)
    ensures RequestsInv(db.treks, db.requests + [Request(trek, requester, Pending)])
  {
  }

  lemma SaveKeepsRequests(treks: seq<Trek>, requests: seq<Request>, id: nat, read: Request, status: Status)
    requires RequestsInv(treks, requests)
    ensures RequestsInv(treks, Saved(requests, id, read, status))
  {
  }

  lemma ApplyKeepsRequests(db: Db, e: Event)
    requires Inv(db)
    ensures RequestsInv(Apply(db, e).treks, Apply(db, e).requests)
  {
    if e.TaskRun? && e.task in db.tasks {
      assert TaskInv(db, e.task);
      match e.task
      case InsertRequest(trek, requester, _) =>
        if !Duplicate(db.requests, trek, requester) {
          InsertKeepsRequests(db, trek, requester);
        }
      case Save(answer, _, id, read) => SaveKeepsRequests(db.treks, db.requests, id, read, StatusOf(answer));
      case _ =>
    }
  }

  lemma ApplyKeepsConversations(db: Db, e: Event)
    requires Inv(db)
    ensures ConversationsInv(Apply(db, e).conversations)
  {
    if e.TaskRun? && e.task in db.tasks && e.task.CreateConversation? {
      assert TaskInv(db, e.task);
      assert RequestInv(db.treks, db.requests[e.task.id]);
    }
  }

  /** The heart of it: an accepted request either has its conversation or has an accept on the way to it. */
  lemma ApplyKeepsAccepts(db: Db, e: Event, id: nat)
    requires Inv(db) && id < |Apply(db, e).requests|
    requires Apply(db, e).requests[id].trek < |Apply(db, e).treks|
    ensures AcceptInv(Apply(db, e), id)
  {
    ApplyExtends(db, e);
    if id < |db.requests| {
      assert AcceptInv(db, id);
      if e.TaskRun? && e.task in db.tasks {
        assert TaskInv(db, e.task);
        DoKeepsAccepts(db, e.task, id);
      }
    }
  }

  lemma DoKeepsAccepts(db: Db, t: Task, id: nat)
    requires t in db.tasks && TaskInv(db, t) && Extends(db, Do(db, t))
    requires id < |db.requests| && db.requests[id].trek < |db.treks| && AcceptInv(db, id)
    ensures AcceptInv(Do(db, t), id)
  {
    var organizer, requester := Organizer(db.treks, db.requests[id]), db.requests[id].requester;
    var find, create := FindConversation(organizer, requester, id), CreateConversation(organizer, requester, id);
    var next := NextOf(db, t);
    if next == Some(find) {
      ProceedCounts(db.tasks, t, next, find);
    } else if next == Some(create) {
      ProceedCounts(db.tasks, t, next, create);
    } else if t == create {
      KeyOpened(db.conversations, organizer, requester);
    } else if find in db.tasks && t != find {
      ProceedCounts(db.tasks, t, next, find);
    } else if create in db.tasks {
      ProceedCounts(db.tasks, t, next, create);
    }
  }

  lemma ApplyKeepsInv(db: Db, e: Event)
    requires Inv(db)
    ensures Inv(Apply(db, e))
  {
    var db' := Apply(db, e);
    ApplyKeepsRequests(db, e);
    ApplyKeepsConversations(db, e);
    forall t | t in db'.tasks
      ensures TaskInv(db', t)
    {
      ApplyKeepsTask(db, e, t);
    }
    forall n | n in db'.fired
      ensures NotificationInv(db', n)
    {
      ApplyKeepsFired(db, e, n);
    }
    forall id | 0 <= id < |db'.requests|
      ensures AcceptInv(db', id)
    {
      assert RequestInv(db'.treks, db'.requests[id]);
      ApplyKeepsAccepts(db, e, id);
    }
  }

  lemma {:induction false} RunKeepsInv(events: seq<Event>)
    ensures Inv(Run(events))
  {
    if events != [] {
      RunKeepsInv(events[..|events| - 1]);
      ApplyKeepsInv(Run(events[..|events| - 1]), events[|events| - 1]);
    }
  }

  // ---------------------------------------------------------------- what every run guarantees

  lemma KeyMeansTalking(conversations: seq<Conversation>, a: ObjectId, b: ObjectId)
    requires ConversationsInv(conversations)
    ensures KeyIn(conversations, PairKey(a, b)) <==> CanTalk(conversations, a, b)
  {
    forall i | 0 <= i < |conversations|
      ensures conversations[i].key == PairKey(a, b) <==> Between(conversations[i], a, b)
    {
      KeyIdentifiesPair(conversations[i].one, conversations[i].other, a, b);
    }
  }

  /** However calls overlap, no two conversations are between the same two people, and none is with oneself. */
  lemma OneConversationPerPair(events: seq<Event>, i: nat, j: nat)
    requires i < j < |Run(events).conversations|
    ensures
      var c, d := Run(events).conversations[i], Run(events).conversations[j];
      !Between(c, d.one, d.other) && c.one != c.other && d.one != d.other
  {
    RunKeepsInv(events);
    var c, d := Run(events).conversations[i], Run(events).conversations[j];
    KeyIdentifiesPair(c.one, c.other, d.one, d.other);
  }

  /** Nobody asks twice to join the same trek, asks to join a vendor's, or asks to join their own. */
  lemma OneRequestPerTrek(events: seq<Event>, i: nat, j: nat)
    requires i < |Run(events).requests| && j < |Run(events).requests|
    ensures
      var db := Run(events);
      var r := db.requests[i];
      && (r.trek == db.requests[j].trek && r.requester == db.requests[j].requester ==> i == j)
      && r.trek < |db.treks| && db.treks[r.trek].peer && db.treks[r.trek].organizer != r.requester
  {
    RunKeepsInv(events);
    assert RequestInv(Run(events).treks, Run(events).requests[i]);
  }

  /** An accepted request has the conversation of its organizer and requester, except while an accept that
      has saved its answer has not got to the conversation yet. */
  lemma AcceptedCanTalk(events: seq<Event>, id: nat)
    requires id < |Run(events).requests| && Run(events).requests[id].status == Accepted
    ensures
      var db := Run(events);
      var r := db.requests[id];
      && r.trek < |db.treks|
      && (CanTalk(db.conversations, Organizer(db.treks, r), r.requester)
          || StillOpening(db.tasks, Organizer(db.treks, r), r.requester, id))
  {
    RunKeepsInv(events);
    var db := Run(events);
    var r := db.requests[id];
    assert RequestInv(db.treks, r) && AcceptInv(db, id);
    KeyMeansTalking(db.conversations, Organizer(db.treks, r), r.requester);
  }

  /** The organizer is told of a request, and the one who made it of the answer; and whoever has been told
      that they were accepted can talk to the organizer from then on. */
  lemma ToldOnlyWhenOpen(events: seq<Event>, n: Notification)
    requires n in Run(events).fired
    ensures
      var db := Run(events);
      && n.request < |db.requests| && db.requests[n.request].trek < |db.treks|
      && (n.kind == Asked ==> n.to == Organizer(db.treks, db.requests[n.request]))
      && (n.kind != Asked ==> n.to == db.requests[n.request].requester)
      && (n.kind == WasAccepted ==> CanTalk(db.conversations, Organizer(db.treks, db.requests[n.request]), n.to))
  {
    RunKeepsInv(events);
    var db := Run(events);
    assert NotificationInv(db, n);
    KeyMeansTalking(db.conversations, Organizer(db.treks, db.requests[n.request]), n.to);
  }

  // ---------------------------------------------------------------- calls that nothing interrupts

  lemma ProceedFromNew(tasks: multiset<Task>, t: Task, next: Option<Task>)
    ensures Proceed(tasks + multiset{t}, t, next) == if next.Some? then tasks + multiset{next.value} else tasks
  {
    assert tasks + multiset{t} - multiset{t} == tasks;
  }

  function With(db: Db, t: Task): Db {
    db.(tasks := db.tasks + multiset{t})
  }

  /** Who may answer a request: the organizer of its trek, while that is there. */
  predicate MayAnswer(db: Db, caller: ObjectId, id: nat) {
    && id < |db.requests| && db.requests[id].trek < |db.treks|
    && !db.treks[db.requests[id].trek].removed && db.treks[db.requests[id].trek].organizer == caller
  }

  lemma AuthorizeRuns(db: Db, answer: Answer, caller: ObjectId, id: nat)
    requires id < |db.requests|
    ensures
      var t := Authorize(answer, caller, id, db.requests[id]);
      Do(With(db, t), t) ==
      if MayAnswer(db, caller, id) then With(db, Save(answer, caller, id, db.requests[id])) else db
  {
    var t := Authorize(answer, caller, id, db.requests[id]);
    ProceedFromNew(db.tasks, t, NextOf(With(db, t), t));
  }

  lemma SaveRuns(db: Db, answer: Answer, caller: ObjectId, id: nat)
    requires id < |db.requests|
    ensures
      var r := db.requests[id];
      var t := Save(answer, caller, id, r);
      var status := match answer case Accept => Accepted case Decline => Declined;
      var saved := db.(requests := db.requests[id := Request(r.trek, r.requester, status)]);
      Do(With(db, t), t) == match answer
                            case Accept => With(saved, FindConversation(caller, r.requester, id))
                            case Decline => With(saved, Notify(Notification(r.requester, id, WasDeclined)))
  {
    var t := Save(answer, caller, id, db.requests[id]);
    ProceedFromNew(db.tasks, t, NextOf(With(db, t), t));
    assert db.requests[id := db.requests[id]] == db.requests;
  }

  lemma FindRuns(db: Db, caller: ObjectId, requester: ObjectId, id: nat)
    ensures
      var t := FindConversation(caller, requester, id);
      Do(With(db, t), t) ==
      if KeyIn(db.conversations, PairKey(caller, requester))
      then With(db, Notify(Notification(requester, id, WasAccepted)))
      else With(db, CreateConversation(caller, requester, id))
  {
    var t := FindConversation(caller, requester, id);
    ProceedFromNew(db.tasks, t, NextOf(With(db, t), t));
  }

  lemma CreateRuns(db: Db, caller: ObjectId, requester: ObjectId, id: nat)
    requires !KeyIn(db.conversations, PairKey(caller, requester))
    ensures
      var t := CreateConversation(caller, requester, id);
      var c := Conversation(caller, requester, PairKey(caller, requester));
      Do(With(db, t), t) ==
      With(db.(conversations := db.conversations + [c]), Notify(Notification(requester, id, WasAccepted)))
  {
    var t := CreateConversation(caller, requester, id);
    ProceedFromNew(db.tasks, t, NextOf(With(db, t), t));
  }

  lemma NotifyRuns(db: Db, n: Notification)
    ensures Do(With(db, Notify(n)), Notify(n)) == db.(fired := db.fired + [n])
  {
    ProceedFromNew(db.tasks, Notify(n), None);
  }

  function RunFrom(db: Db, events: seq<Event>): Db {
    if events == [] then db else Apply(RunFrom(db, events[..|events| - 1]), events[|events| - 1])
  }

  lemma ThenRun(db: Db, events: seq<Event>, e: Event, before: Db, after: Db) returns (events': seq<Event>)
    requires RunFrom(db, events) == before && Apply(before, e) == after
    ensures RunFrom(db, events') == after
  {
    events' := events + [e];
    assert events'[..|events|] == events;
  }

  /** An answer up to its save: a run that nothing interrupts, and that ends there if the caller may not. */
  lemma AnswerBegins(db: Db, answer: Answer, caller: ObjectId, id: nat) returns (events: seq<Event>)
    requires id < |db.requests|
    ensures RunFrom(db, events) ==
            if MayAnswer(db, caller, id) then With(db, Save(answer, caller, id, db.requests[id])) else db
  {
    var t := Authorize(answer, caller, id, db.requests[id]);
    var x := ThenRun(db, [], AnswerCalled(answer, caller, id), db, With(db, t));
    AuthorizeRuns(db, answer, caller, id);
    events := ThenRun(db, x, TaskRun(t), With(db, t), Do(With(db, t), t));
  }

  /** An accept that nothing interrupts and whose caller may answer sets the status, opens the conversation
      if there is none, and tells the requester; one whose caller may not leaves everything as it was. */
  lemma WholeAcceptIsARun(db: Db, caller: ObjectId, id: nat) returns (events: seq<Event>)
    requires id < |db.requests|
    ensures
      var r := db.requests[id];
      var key := PairKey(caller, r.requester);
      RunFrom(db, events) ==
      if !MayAnswer(db, caller, id) then db
      else Db(db.treks, db.requests[id := Request(r.trek, r.requester, Accepted)],
              if KeyIn(db.conversations, key) then db.conversations
              else db.conversations + [Conversation(caller, r.requester, key)],
              db.tasks, db.fired + [Notification(r.requester, id, WasAccepted)])
  {
    events := AnswerBegins(db, Accept, caller, id);
    if MayAnswer(db, caller, id) {
      var r := db.requests[id];
      var save, find := Save(Accept, caller, id, r), FindConversation(caller, r.requester, id);
      var create, n := CreateConversation(caller, r.requester, id), Notification(r.requester, id, WasAccepted);
      var saved := db.(requests := db.requests[id := Request(r.trek, r.requester, Accepted)]);
      SaveRuns(db, Accept, caller, id);
      events := ThenRun(db, events, TaskRun(save), With(db, save), With(saved, find));
      FindRuns(saved, caller, r.requester, id);
      if KeyIn(db.conversations, PairKey(caller, r.requester)) {
        events := ThenRun(db, events, TaskRun(find), With(saved, find), With(saved, Notify(n)));
        events := NotifyEnds(db, events, saved, n);
      } else {
        var c := Conversation(caller, r.requester, PairKey(caller, r.requester));
        var talking := saved.(conversations := db.conversations + [c]);
        events := ThenRun(db, events, TaskRun(find), With(saved, find), With(saved, create));
        CreateRuns(saved, caller, r.requester, id);
        events := ThenRun(db, events, TaskRun(create), With(saved, create), With(talking, Notify(n)));
        events := NotifyEnds(db, events, talking, n);
      }
    }
  }

  lemma NotifyEnds(db: Db, events: seq<Event>, mid: Db, n: Notification) returns (events': seq<Event>)
    requires RunFrom(db, events) == With(mid, Notify(n))
    ensures RunFrom(db, events') == mid.(fired := mid.fired + [n])
  {
    NotifyRuns(mid, n);
    events' := ThenRun(db, events, TaskRun(Notify(n)), With(mid, Notify(n)), mid.(fired := mid.fired + [n]));
  }

  /** A decline likewise sets the status and tells the requester. */
  lemma WholeDeclineIsARun(db: Db, caller: ObjectId, id: nat) returns (events: seq<Event>)
    requires id < |db.requests|
    ensures
      var r := db.requests[id];
      RunFrom(db, events) ==
      if !MayAnswer(db, caller, id) then db
      else Db(db.treks, db.requests[id := Request(r.trek, r.requester, Declined)], db.conversations, db.tasks,
              db.fired + [Notification(r.requester, id, WasDeclined)])
  {
    events := AnswerBegins(db, Decline, caller, id);
    if MayAnswer(db, caller, id) {
      var r := db.requests[id];
      var save, n := Save(Decline, caller, id, r), Notification(r.requester, id, WasDeclined);
      var saved := db.(requests := db.requests[id := Request(r.trek, r.requester, Declined)]);
      SaveRuns(db, Decline, caller, id);
      events := ThenRun(db, events, TaskRun(save), With(db, save), With(saved, Notify(n)));
      events := NotifyEnds(db, events, saved, n);
    }
  }

  // ---------------------------------------------------------------- whole calls

  ghost predicate AcceptedHaveKeys(treks: seq<Trek>, requests: seq<Request>, conversations: seq<Conversation>)
    requires RequestsInv(treks, requests)
  {
    forall i :: 0 <= i < |requests| && requests[i].status == Accepted ==>
      RequestInv(treks, requests[i])
      && KeyIn(conversations, PairKey(Organizer(treks, requests[i]), requests[i].requester))
  }

  class JoinRequestsService {
    var treks: seq<Trek>
    var requests: seq<Request>
    var conversations: seq<Conversation>
    var fired: seq<Notification>

    constructor (treks: seq<Trek>)
      ensures this.treks == treks && requests == [] && conversations == [] && fired == [] && Valid()
    {
      this.treks, requests, conversations, fired := treks, [], [], [];
    }

    /** Between whole calls every accepted request has its conversation. */
    ghost predicate Valid()
      reads this
    {
      && RequestsInv(treks, requests)
      && ConversationsInv(conversations)
      && AcceptedHaveKeys(treks, requests, conversations)
    }

    method Create(requester: ObjectId, trek: nat) returns (r: Result<nat, Error>)
      requires Valid()
      modifies this`requests, this`fired
      ensures Valid()
      ensures
        if trek >= |treks| || treks[trek].removed then r == Err(NotFound("Trek not found."))
        else if !treks[trek].peer then r == Err(BadRequest("Join requests only apply to peer treks."))
        else if treks[trek].organizer == requester then
          r == Err(BadRequest("You cannot request to join your own trek."))
        else if exists i :: 0 <= i < |old(requests)|
                  && old(requests)[i].trek == trek && old(requests)[i].requester == requester
        then r == Err(Conflict)
        else r.Ok?
      ensures r.Err? ==> requests == old(requests) && fired == old(fired)
      ensures r.Ok? ==>
                && r.value == |old(requests)| && requests == old(requests) + [Request(trek, requester, Pending)]
                && trek < |treks|
                && fired == old(fired) + [Notification(treks[trek].organizer, r.value, Asked)]
    {
      var check := CheckCreate(treks, requester, trek);
      if check.Some? {
        return Err(check.value);
      }
      if Duplicate(requests, trek, requester) {
        return Err(Conflict);
      }
      r := Ok(|requests|);
      requests := requests + [Request(trek, requester, Pending)];
      fired := fired + [Notification(treks[trek].organizer, r.value, Asked)];
    }

    /** Which request is answered, if the caller may answer it. */
    method FindAndAuthorize(caller: ObjectId, id: nat) returns (r: Result<Request, Error>)
      ensures r.Ok? <==> id < |requests| && requests[id].trek < |treks| && !treks[requests[id].trek].removed
                         && treks[requests[id].trek].organizer == caller
      ensures r.Ok? ==> r.value == requests[id]
      ensures id >= |requests| ==> r == Err(NotFound("Join request not found."))
      ensures id < |requests| && (requests[id].trek >= |treks| || treks[requests[id].trek].removed) ==>
                r == Err(NotFound("Trek not found."))
      ensures r == Err(Forbidden) <==>
              id < |requests| && requests[id].trek < |treks| && !treks[requests[id].trek].removed
              && treks[requests[id].trek].organizer != caller
    {
      if id >= |requests| {
        return Err(NotFound("Join request not found."));
      }
      var request := requests[id];
      if request.trek >= |treks| || treks[request.trek].removed {
        return Err(NotFound("Trek not found."));
      }
      if treks[request.trek].organizer != caller {
        return Err(Forbidden);
      }
      r := Ok(request);
    }

    /** The conversation of two people, made if it is not there. */
    method FindOrCreateConversation(a: ObjectId, b: ObjectId) returns (i: nat)
      requires ConversationsInv(conversations) && a != b
      modifies this`conversations
      ensures ConversationsInv(conversations)
      ensures i < |conversations| && Between(conversations[i], a, b)
      ensures old(conversations) <= conversations
      ensures conversations != old(conversations) <==> !CanTalk(old(conversations), a, b)
      ensures |conversations| <= |old(conversations)| + 1
    {
      var key := PairKey(a, b);
      KeyMeansTalking(conversations, a, b);
      i := 0;
      while i < |conversations| && conversations[i].key != key
        invariant i <= |conversations|
        invariant forall k :: 0 <= k < i ==> conversations[k].key != key
      {
        i := i + 1;
      }
      if i < |conversations| {
        KeyIdentifiesPair(conversations[i].one, conversations[i].other, a, b);
        return;
      }
      conversations := conversations + [Conversation(a, b, key)];
    }

    /** Accepts, also a request already answered; the requester hears of it once the conversation is there. */
    method AcceptRequest(caller: ObjectId, id: nat) returns (r: Result<nat, Error>)
      requires Valid()
      modifies this`requests, this`conversations, this`fired
      ensures Valid()
      ensures r.Ok? <==> id < |old(requests)| && !treks[old(requests)[id].trek].removed
                         && treks[old(requests)[id].trek].organizer == caller
      ensures id >= |old(requests)| ==> r == Err(NotFound("Join request not found."))
      ensures id < |old(requests)| && treks[old(requests)[id].trek].removed ==> r == Err(NotFound("Trek not found."))
      ensures r == Err(Forbidden) <==>
                id < |old(requests)| && !treks[old(requests)[id].trek].removed
                && treks[old(requests)[id].trek].organizer != caller
      ensures r.Err? ==> requests == old(requests) && conversations == old(conversations) && fired == old(fired)
      ensures r.Ok? ==>
                && requests == old(requests)[id := old(requests)[id].(status := Accepted)]
                && r.value < |conversations| && Between(conversations[r.value], caller, requests[id].requester)
                && old(conversations) <= conversations && |conversations| <= |old(conversations)| + 1
                && (conversations != old(conversations)
                    <==> !CanTalk(old(conversations), caller, requests[id].requester))
                && fired == old(fired) + [Notification(requests[id].requester, id, WasAccepted)]
    {
      var found := FindAndAuthorize(caller, id);
      if found.Err? {
        return Err(found.error);
      }
      var requester := found.value.requester;
      assert RequestInv(treks, requests[id]);
      requests := requests[id := requests[id].(status := Accepted)];
      var i := FindOrCreateConversation(caller, requester);
      KeyMeansTalking(conversations, caller, requester);
      fired := fired + [Notification(requester, id, WasAccepted)];
      r := Ok(i);
    }

    method DeclineRequest(caller: ObjectId, id: nat) returns (r: Result<Request, Error>)
      requires Valid()
      modifies this`requests, this`fired
      ensures Valid()
      ensures r.Ok? <==> id < |old(requests)| && !treks[old(requests)[id].trek].removed
                         && treks[old(requests)[id].trek].organizer == caller
      ensures id >= |old(requests)| ==> r == Err(NotFound("Join request not found."))
      ensures id < |old(requests)| && treks[old(requests)[id].trek].removed ==> r == Err(NotFound("Trek not found."))
      ensures r == Err(Forbidden) <==>
                id < |old(requests)| && !treks[old(requests)[id].trek].removed
                && treks[old(requests)[id].trek].organizer != caller
      ensures r.Err? ==> requests == old(requests) && fired == old(fired)
      ensures r.Ok? ==>
                && r.value == old(requests)[id].(status := Declined)
                && requests == old(requests)[id := r.value]
                && fired == old(fired) + [Notification(r.value.requester, id, WasDeclined)]
    {
      var found := FindAndAuthorize(caller, id);
      if found.Err? {
        return Err(found.error);
      }
      assert RequestInv(treks, requests[id]);
      r := Ok(found.value.(status := Declined));
      requests := requests[id := r.value];
      fired := fired + [Notification(r.value.requester, id, WasDeclined)];
    }
  }
}
