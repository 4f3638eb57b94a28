/** Refresh-token rotation with reuse detection: a flat token collection, and the sessions it stands for. */
module Auth {
  import opened Common

  /** What the collection stores in place of a token. Two tokens never share a hash. */
  datatype Hash = Sha256(token: nat)

  datatype Doc = Doc(user: nat, family: nat, revoked: bool, expiresAt: int)

  /** The token and user collections. Tokens, families and users are numbered in order of creation, so
      the next one is always fresh. A user keeps a marker of its most recent family. */
  datatype Db = Db(
    docs: map<Hash, Doc>,
    users: map<nat, Option<nat>>,
    now: int,
    nextToken: nat,
    nextFamily: nat,
    nextUser: nat,
    lifetime: nat)

  datatype Error = EmailTaken | InvalidCredentials | InvalidToken | SessionRevoked | TokenExpired | AccountGone

  type Reply = Result<nat, Error>

  function RevokeFamily(docs: map<Hash, Doc>, family: nat): map<Hash, Doc> {
    map h | h in docs :: if docs[h].family == family then docs[h].(revoked := true) else docs[h]
  }

  function IssueTokenPair(db: Db, user: nat, family: nat): Db {
    db.(docs := db.docs[Sha256(db.nextToken) := Doc(user, family, false, db.now + db.lifetime)],
        nextToken := db.nextToken + 1,
        users := db.users[user := Some(family)])
  }

  function StartSession(db: Db, user: nat): Db {
    IssueTokenPair(db.(nextFamily := db.nextFamily + 1), user, db.nextFamily)
  }

  function WithNewUser(db: Db): Db {
    db.(users := db.users[db.nextUser := None], nextUser := db.nextUser + 1)
  }

  function SignUp(db: Db): (Db, Reply) {
    (StartSession(WithNewUser(db), db.nextUser), Ok(db.nextToken))
  }

  /** `valid` is the verdict on the credentials. */
  function LogIn(db: Db, user: nat, valid: bool): (Db, Reply) {
    if user !in db.users || !valid then (db, Err(InvalidCredentials))
    else (StartSession(db, user), Ok(db.nextToken))
  }

  /** The writing half of a refresh, on the document that its reading half found. */
  function Rotate(db: Db, h: Hash, existing: Doc): Db {
    IssueTokenPair(db.(docs := db.docs[h := existing.(revoked := true)]), existing.user, existing.family)
  }

  function Refresh(db: Db, token: nat): (Db, Reply) {
    var h := Sha256(token);
    if h !in db.docs then (db, Err(InvalidToken))
    else
      var existing := db.docs[h];
      if existing.revoked then
        (db.(docs := RevokeFamily(db.docs, existing.family)), Err(SessionRevoked))
      else if existing.expiresAt < db.now then (db, Err(TokenExpired))
      else if existing.user !in db.users then (db, Err(AccountGone))
      else (Rotate(db, h, existing), Ok(db.nextToken))
  }

  function LogOut(db: Db, token: nat): Db {
    var h := Sha256(token);
    if h !in db.docs then db
    else db.(docs := RevokeFamily(db.docs, db.docs[h].family))
  }

  /** The TTL index: some of the documents whose expiry has come are deleted. */
  function SweepDocs(db: Db, gone: set<Hash>): Db {
    db.(docs := map h | h in db.docs && !(h in gone && db.docs[h].expiresAt <= db.now) :: db.docs[h])
  }

  // ---------------------------------------------------------------- runs of whole calls

  datatype Event =
    | SignedUp
    | LoggedIn(user: nat, valid: bool)
    | Refreshed(token: nat)
    | LoggedOut(token: nat)
    | Swept(gone: set<Hash>)
    | Elapsed(ms: nat)
    | UserRemoved(user: nat)

  function Apply(db: Db, e: Event): Db {
    match e
    case SignedUp => SignUp(db).0
    case LoggedIn(user, valid) => LogIn(db, user, valid).0
    case Refreshed(token) => Refresh(db, token).0
    case LoggedOut(token) => LogOut(db, token)
    case Swept(gone) => SweepDocs(db, gone)
    case Elapsed(ms) => db.(now := db.now + ms)
    case UserRemoved(user) => db.(users := db.users - {user})
  }

  function Init(now: int, lifetime: nat): Db {
    Db(map[], map[], now, 0, 0, 0, lifetime)
  }

  function Run(db: Db, events: seq<Event>): Db {
    if events == [] then db
    else Apply(Run(db, events[..|events| - 1]), events[|events| - 1])
  }

  // ---------------------------------------------------------------- sessions

  /** A token as it was issued; its number is its position in the issue log. */
  datatype Issue = Issue(family: nat, expiresAt: int)

  /** A login session: its user, the last token issued in it, and whether it has been killed. */
  datatype Session = Session(user: nat, tip: nat, dead: bool)

  /** The abstract view: every issue so far, one session per family, and the tokens not yet swept. */
  datatype Spec = Spec(
    issued: seq<Issue>,
    sessions: seq<Session>,
    stored: set<nat>,
    users: set<nat>,
    nextUser: nat,
    now: int,
    lifetime: nat)

  function InitSpec(now: int, lifetime: nat): Spec {
    Spec([], [], {}, {}, 0, now, lifetime)
  }

  function Push(s: Spec, family: nat): Spec {
    s.(issued := s.issued + [Issue(family, s.now + s.lifetime)], stored := s.stored + {|s.issued|})
  }

  function Open(s: Spec, user: nat): Spec {
    Push(s, |s.sessions|).(sessions := s.sessions + [Session(user, |s.issued|, false)])
  }

  predicate Stored(s: Spec, token: nat) {
    token in s.stored && token < |s.issued| && s.issued[token].family < |s.sessions|
  }

  function SessionOf(s: Spec, token: nat): Session
    requires Stored(s, token)
  {
    s.sessions[s.issued[token].family]
  }

  /** Only the tip of a session that has not been killed is worth anything. */
  predicate LiveTip(s: Spec, token: nat)
    requires Stored(s, token)
  {
    !SessionOf(s, token).dead && SessionOf(s, token).tip == token
  }

  function Kill(s: Spec, token: nat): Spec
    requires Stored(s, token)
  {
    s.(sessions := s.sessions[s.issued[token].family := SessionOf(s, token).(dead := true)])
  }

  function SpecReply(s: Spec, token: nat): Reply {
    if !Stored(s, token) then Err(InvalidToken)
    else if !LiveTip(s, token) then Err(SessionRevoked)
    else if s.issued[token].expiresAt < s.now then Err(TokenExpired)
    else if SessionOf(s, token).user !in s.users then Err(AccountGone)
    else Ok(|s.issued|)
  }

  function SpecRefresh(s: Spec, token: nat): Spec {
    match SpecReply(s, token)
    case Ok(next) =>
      var f := s.issued[token].family;
      Push(s, f).(sessions := s.sessions[f := s.sessions[f].(tip := next)])
    case Err(SessionRevoked) => Kill(s, token)
    case Err(_) => s
  }

  function SpecWithNewUser(s: Spec): Spec {
    s.(users := s.users + {s.nextUser}, nextUser := s.nextUser + 1)
  }

  function SpecApply(s: Spec, e: Event): Spec {
    match e
    case SignedUp => Open(SpecWithNewUser(s), s.nextUser)
    case LoggedIn(user, valid) => if user in s.users && valid then Open(s, user) else s
    case Refreshed(token) => SpecRefresh(s, token)
    case LoggedOut(token) => if Stored(s, token) then Kill(s, token) else s
    case Swept(gone) =>
      s.(stored := set t | t in s.stored &&
                           !(t < |s.issued| && Sha256(t) in gone && s.issued[t].expiresAt <= s.now))
    case Elapsed(ms) => s.(now := s.now + ms)
    case UserRemoved(user) => s.(users := s.users - {user})
  }

  function SpecRun(s: Spec, events: seq<Event>): Spec {
    if events == [] then s
    else SpecApply(SpecRun(s, events[..|events| - 1]), events[|events| - 1])
  }

  /** The last token issued in its family. */
  predicate LastOfFamily(issued: seq<Issue>, token: nat)
    requires token < |issued|
  {
    forall t :: token < t < |issued| ==> issued[t].family != issued[token].family
  }

  ghost predicate WellFormed(s: Spec) {
    && (forall t :: t in s.stored ==> t < |s.issued|)
    && (forall t :: 0 <= t < |s.issued| ==> s.issued[t].family < |s.sessions|)
    && (forall f :: 0 <= f < |s.sessions| ==>
          && s.sessions[f].tip < |s.issued|
          && s.issued[s.sessions[f].tip].family == f
          && s.sessions[f].user < s.nextUser)
    && (forall t :: 0 <= t < |s.issued| ==> t <= s.sessions[s.issued[t].family].tip)
    && (forall u :: u in s.users ==> u < s.nextUser)
  }

  /** Tokens expire in the order in which they were issued. */
  ghost predicate ExpiryOrdered(s: Spec) {
    && (forall t1, t2 :: 0 <= t1 <= t2 < |s.issued| ==> s.issued[t1].expiresAt <= s.issued[t2].expiresAt)
    && (forall t :: 0 <= t < |s.issued| ==> s.issued[t].expiresAt <= s.now + s.lifetime)
  }

  /** The flat document that a stored token must have. */
  function DocOf(s: Spec, token: nat): Doc
    requires Stored(s, token)
  {
    Doc(SessionOf(s, token).user, s.issued[token].family, !LiveTip(s, token), s.issued[token].expiresAt)
  }

  /** The collection is the sessions, written out flat. */
  ghost predicate Refines(db: Db, s: Spec) {
    && WellFormed(s)
    && db.users.Keys == s.users && db.nextUser == s.nextUser
    && db.now == s.now && db.lifetime == s.lifetime
    && db.nextToken == |s.issued| && db.nextFamily == |s.sessions|
    && (forall h :: h in db.docs <==> h.token in s.stored)
    && (forall h :: h in db.docs ==> Stored(s, h.token) && db.docs[h] == DocOf(s, h.token))
  }

  /** `Refines`, one document at a time. */
  ghost predicate DocMatches(docs: map<Hash, Doc>, s: Spec, token: nat) {
    && (Sha256(token) in docs <==> token in s.stored)
    && (token in s.stored ==> Stored(s, token) && docs[Sha256(token)] == DocOf(s, token))
  }

  lemma MatchEach(db: Db, s: Spec, token: nat)
    requires Refines(db, s)
    ensures DocMatches(db.docs, s, token)
  {
    assert Sha256(token) in db.docs <==> Sha256(token).token in s.stored;
  }

  lemma MatchAll(db: Db, s: Spec)
    requires WellFormed(s)
    requires db.users.Keys == s.users && db.nextUser == s.nextUser && db.now == s.now && db.lifetime == s.lifetime
    requires db.nextToken == |s.issued| && db.nextFamily == |s.sessions|
    requires forall token: nat :: DocMatches(db.docs, s, token)
    ensures Refines(db, s)
  {
    forall h: Hash
      ensures h in db.docs <==> h.token in s.stored
      ensures h in db.docs ==> Stored(s, h.token) && db.docs[h] == DocOf(s, h.token)
    {
      assert DocMatches(db.docs, s, h.token) && h == Sha256(h.token);
    }
  }

  /** What issuing a token to family `f` makes of the sessions. */
  function Extend(s: Spec, f: nat, session: Session): Spec
    requires f <= |s.sessions|
  {
    var p := Push(s, f);
    if f < |s.sessions| then p.(sessions := s.sessions[f := session]) else p.(sessions := s.sessions + [session])
  }

  lemma ExtendIsWellFormed(s: Spec, f: nat, session: Session)
    requires WellFormed(s) && f <= |s.sessions|
    requires session.tip == |s.issued| && session.user < s.nextUser
    ensures WellFormed(Extend(s, f, session))
  {
  }

  lemma KillIsWellFormed(s: Spec, token: nat)
    requires WellFormed(s) && Stored(s, token)
    ensures WellFormed(Kill(s, token))
  {
  }

  lemma OpenRefines(db: Db, s: Spec, user: nat)
    requires Refines(db, s) && user in s.users
    ensures Refines(StartSession(db, user), Open(s, user))
  {
    var s' := Open(s, user);
    ExtendIsWellFormed(s, |s.sessions|, Session(user, |s.issued|, false));
    forall token: nat
      ensures DocMatches(StartSession(db, user).docs, s', token)
    {
      MatchEach(db, s, token);
    }
    MatchAll(StartSession(db, user), s');
  }

  lemma KillRefines(db: Db, s: Spec, token: nat)
    requires Refines(db, s) && Stored(s, token)
    ensures Sha256(token) in db.docs && db.docs[Sha256(token)] == DocOf(s, token)
    ensures Refines(db.(docs := RevokeFamily(db.docs, db.docs[Sha256(token)].family)), Kill(s, token))
  {
    MatchEach(db, s, token);
    KillIsWellFormed(s, token);
    var db' := db.(docs := RevokeFamily(db.docs, db.docs[Sha256(token)].family));
    forall t: nat
      ensures DocMatches(db'.docs, Kill(s, token), t)
    {
      MatchEach(db, s, t);
    }
    MatchAll(db', Kill(s, token));
  }

  lemma RotateRefines(db: Db, s: Spec, token: nat)
    requires Refines(db, s) && SpecReply(s, token).Ok?
    ensures Refines(Refresh(db, token).0, SpecRefresh(s, token))
  {
    MatchEach(db, s, token);
    var f := s.issued[token].family;
    var db', s' := Refresh(db, token).0, SpecRefresh(s, token);
    ExtendIsWellFormed(s, f, s.sessions[f].(tip := |s.issued|));
    assert s' == Extend(s, f, s.sessions[f].(tip := |s.issued|));
    forall t: nat
      ensures DocMatches(db'.docs, s', t)
    {
      MatchEach(db, s, t);
    }
    assert db'.users.Keys == s'.users;
    MatchAll(db', s');
  }

  lemma ReplyAgrees(db: Db, s: Spec, token: nat)
    requires DocMatches(db.docs, s, token)
    requires db.users.Keys == s.users && db.now == s.now && db.nextToken == |s.issued|
    ensures Refresh(db, token).1 == SpecReply(s, token)
    ensures SpecReply(s, token) == Err(SessionRevoked) ==>
              Stored(s, token)
              && Refresh(db, token).0 == db.(docs := RevokeFamily(db.docs, db.docs[Sha256(token)].family))
    ensures SpecReply(s, token).Err? && SpecReply(s, token) != Err(SessionRevoked) ==> Refresh(db, token).0 == db
  {
  }

  /** A refresh on the collection answers as the sessions say it should, and stays in step with them. */
  lemma RefreshRefines(db: Db, s: Spec, token: nat)
    requires Refines(db, s)
    ensures Refresh(db, token).1 == SpecReply(s, token)
    ensures Refines(Refresh(db, token).0, SpecRefresh(s, token))
  {
    MatchEach(db, s, token);
    ReplyAgrees(db, s, token);
    var db', s' := Refresh(db, token).0, SpecRefresh(s, token);
    if SpecReply(s, token).Ok? {
      RotateRefines(db, s, token);
    } else if SpecReply(s, token) == Err(SessionRevoked) {
      KillRefines(db, s, token);
      assert s' == Kill(s, token);
    } else {
      assert db' == db && s' == s;
    }
  }

  lemma SweepRefines(db: Db, s: Spec, gone: set<Hash>)
    requires Refines(db, s)
    ensures Refines(SweepDocs(db, gone), SpecApply(s, Swept(gone)))
  {
    var db', s' := SweepDocs(db, gone), SpecApply(s, Swept(gone));
    forall t: nat
      ensures DocMatches(db'.docs, s', t)
    {
      MatchEach(db, s, t);
    }
    MatchAll(db', s');
  }

  lemma RemovalRefines(db: Db, s: Spec, user: nat)
    requires Refines(db, s)
    ensures Refines(Apply(db, UserRemoved(user)), SpecApply(s, UserRemoved(user)))
  {
    var db', s' := Apply(db, UserRemoved(user)), SpecApply(s, UserRemoved(user));
    forall t: nat
      ensures DocMatches(db'.docs, s', t)
    {
      MatchEach(db, s, t);
    }
    MatchAll(db', s');
  }

  lemma NewUserRefines(db: Db, s: Spec)
    requires Refines(db, s)
    ensures Refines(WithNewUser(db), SpecWithNewUser(s))
  {
    forall t: nat
      ensures DocMatches(WithNewUser(db).docs, SpecWithNewUser(s), t)
    {
      MatchEach(db, s, t);
    }
    MatchAll(WithNewUser(db), SpecWithNewUser(s));
  }

  lemma SignUpRefines(db: Db, s: Spec)
    requires Refines(db, s)
    ensures Refines(Apply(db, SignedUp), SpecApply(s, SignedUp))
  {
    NewUserRefines(db, s);
    OpenRefines(WithNewUser(db), SpecWithNewUser(s), db.nextUser);
  }

  lemma LogOutRefines(db: Db, s: Spec, token: nat)
    requires Refines(db, s)
    ensures Refines(Apply(db, LoggedOut(token)), SpecApply(s, LoggedOut(token)))
  {
    MatchEach(db, s, token);
    if Stored(s, token) {
      KillRefines(db, s, token);
    } else {
      assert Apply(db, LoggedOut(token)) == db && SpecApply(s, LoggedOut(token)) == s;
    }
  }

  lemma LogInRefines(db: Db, s: Spec, user: nat, valid: bool)
    requires Refines(db, s)
    ensures Refines(Apply(db, LoggedIn(user, valid)), SpecApply(s, LoggedIn(user, valid)))
  {
    if user in db.users && valid {
      OpenRefines(db, s, user);
    } else {
      assert Apply(db, LoggedIn(user, valid)) == db && SpecApply(s, LoggedIn(user, valid)) == s;
    }
  }

  lemma ApplyRefines(db: Db, s: Spec, e: Event)
    requires Refines(db, s)
    ensures Refines(Apply(db, e), SpecApply(s, e))
  {
    match e
    case SignedUp => SignUpRefines(db, s);
    case LoggedIn(user, valid) => LogInRefines(db, s, user, valid);
    case Refreshed(token) => RefreshRefines(db, s, token);
    case LoggedOut(token) => LogOutRefines(db, s, token);
    case Swept(gone) => SweepRefines(db, s, gone);
    case Elapsed(ms) =>
    case UserRemoved(user) => RemovalRefines(db, s, user);
  }

  /** Every run of calls on the flat collection is a run of the sessions. */
  lemma {:induction false} RunRefines(db: Db, s: Spec, events: seq<Event>)
    requires Refines(db, s)
    ensures Refines(Run(db, events), SpecRun(s, events))
  {
    if events != [] {
      var n := |events| - 1;
      RunRefines(db, s, events[..n]);
      ApplyRefines(Run(db, events[..n]), SpecRun(s, events[..n]), events[n]);
    }
  }

  function DbAfter(now: int, lifetime: nat, events: seq<Event>): Db {
    Run(Init(now, lifetime), events)
  }

  /** The issue log and the sessions that a history of calls amounts to. */
  function History(now: int, lifetime: nat, events: seq<Event>): Spec {
    SpecRun(InitSpec(now, lifetime), events)
  }

  lemma ReachableRefines(now: int, lifetime: nat, events: seq<Event>)
    ensures Refines(DbAfter(now, lifetime, events), History(now, lifetime, events))
  {
    RunRefines(Init(now, lifetime), InitSpec(now, lifetime), events);
  }

  // ---------------------------------------------------------------- when a refresh succeeds

  /** A logout with a stored token of the family, or a replay of one that is not its last. */
  predicate Kills(s: Spec, e: Event, family: nat) {
    match e
    case LoggedOut(t) => Stored(s, t) && s.issued[t].family == family
    case Refreshed(t) => Stored(s, t) && s.issued[t].family == family && !LastOfFamily(s.issued, t)
    case _ => false
  }

  ghost predicate Killed(now: int, lifetime: nat, events: seq<Event>, family: nat) {
    exists k :: 0 <= k < |events| && Kills(History(now, lifetime, events[..k]), events[k], family)
  }

  lemma TipIsLast(s: Spec, token: nat)
    requires WellFormed(s) && Stored(s, token)
    ensures SessionOf(s, token).tip == token <==> LastOfFamily(s.issued, token)
  {
    var tip := SessionOf(s, token).tip;
    assert token <= tip && s.issued[tip].family == s.issued[token].family;
  }

  lemma ApplyKills(s: Spec, e: Event, family: nat)
    requires WellFormed(s)
    ensures |s.sessions| <= |SpecApply(s, e).sessions|
    ensures family < |s.sessions| ==>
              (SpecApply(s, e).sessions[family].dead <==> s.sessions[family].dead || Kills(s, e, family))
    ensures |s.sessions| <= family ==> !Kills(s, e, family)
    ensures |s.sessions| <= family < |SpecApply(s, e).sessions| ==> !SpecApply(s, e).sessions[family].dead
  {
    if e.Refreshed? && Stored(s, e.token) {
      TipIsLast(s, e.token);
    }
  }

  /** The last event either kills the family or leaves the verdict as it was. */
  lemma KilledLast(now: int, lifetime: nat, events: seq<Event>, family: nat, n: nat)
    requires |events| == n + 1
    ensures Killed(now, lifetime, events, family) <==>
            Killed(now, lifetime, events[..n], family)
            || Kills(History(now, lifetime, events[..n]), events[n], family)
  {
    assert forall k :: 0 <= k < n ==> events[..n][..k] == events[..k];
    if Killed(now, lifetime, events[..n], family) {
      var k :| 0 <= k < n && Kills(History(now, lifetime, events[..n][..k]), events[..n][k], family);
      assert Kills(History(now, lifetime, events[..k]), events[k], family);
    }
  }

  lemma HistoryLast(now: int, lifetime: nat, events: seq<Event>, n: nat)
    requires |events| == n + 1
    ensures History(now, lifetime, events) == SpecApply(History(now, lifetime, events[..n]), events[n])
    ensures WellFormed(History(now, lifetime, events[..n]))
  {
    ReachableRefines(now, lifetime, events[..n]);
  }

  /** A family is dead exactly when something has killed it; one that is not open yet cannot be. */
  ghost predicate DeadAsKilled(s: Spec, family: nat, killed: bool) {
    if family < |s.sessions| then s.sessions[family].dead <==> killed else !killed
  }

  lemma ApplyKeepsVerdict(s: Spec, e: Event, family: nat, killed: bool)
    requires WellFormed(s) && DeadAsKilled(s, family, killed)
    ensures DeadAsKilled(SpecApply(s, e), family, killed || Kills(s, e, family))
  {
    ApplyKills(s, e, family);
  }

  lemma {:induction false} DeadIffKilled(now: int, lifetime: nat, events: seq<Event>, family: nat)
    ensures DeadAsKilled(History(now, lifetime, events), family, Killed(now, lifetime, events, family))
  {
    if events != [] {
      var n := |events| - 1;
      DeadIffKilled(now, lifetime, events[..n], family);
      KilledLast(now, lifetime, events, family, n);
      HistoryLast(now, lifetime, events, n);
      var killed := Killed(now, lifetime, events[..n], family);
      ApplyKeepsVerdict(History(now, lifetime, events[..n]), events[n], family, killed);
    }
  }

  /** After any history of non-overlapping calls, a refresh succeeds exactly when the token is unswept,
      is the last one issued in its family, no logout or replay with a stored token of the family has
      happened, it has not expired and its user still exists. */
  lemma RefreshSucceedsExactly(now: int, lifetime: nat, events: seq<Event>, token: nat)
    ensures
      var db := DbAfter(now, lifetime, events);
      var s := History(now, lifetime, events);
      Refresh(db, token).1.Ok? <==>
        && Sha256(token) in db.docs
        && token < |s.issued| && s.issued[token].family < |s.sessions|
        && LastOfFamily(s.issued, token)
        && !Killed(now, lifetime, events, s.issued[token].family)
        && db.now <= s.issued[token].expiresAt
        && s.sessions[s.issued[token].family].user in db.users
  {
    var db, s := DbAfter(now, lifetime, events), History(now, lifetime, events);
    ReachableRefines(now, lifetime, events);
    MatchEach(db, s, token);
    ReplyAgrees(db, s, token);
    if Stored(s, token) {
      TipIsLast(s, token);
      DeadIffKilled(now, lifetime, events, s.issued[token].family);
    }
  }

  // ---------------------------------------------------------------- what no later call can undo

  predicate NothingLive(s: Spec, family: nat)
    requires family < |s.sessions|
  {
    s.sessions[family].dead || s.sessions[family].tip !in s.stored
  }

  ghost predicate Later(s: Spec, s': Spec) {
    && s.issued <= s'.issued
    && s.now <= s'.now
    && s.nextUser <= s'.nextUser
    && |s.sessions| <= |s'.sessions|
    && (forall f :: 0 <= f < |s.sessions| ==>
          && s.sessions[f].user == s'.sessions[f].user
          && (s.sessions[f].dead ==> s'.sessions[f].dead)
          && (NothingLive(s, f) ==> NothingLive(s', f)))
    && (forall t :: t in s'.stored ==> t in s.stored || t >= |s.issued|)
    && (forall u :: u in s'.users ==> u in s.users || u >= s.nextUser)
  }

  lemma ApplyIsLater(s: Spec, e: Event)
    requires WellFormed(s)
    ensures Later(s, SpecApply(s, e))
  {
  }

  lemma {:induction false} RunIsLater(db: Db, s: Spec, events: seq<Event>)
    requires Refines(db, s)
    ensures Later(s, SpecRun(s, events))
  {
    if events != [] {
      var n := |events| - 1;
      RunIsLater(db, s, events[..n]);
      RunRefines(db, s, events[..n]);
      ApplyIsLater(SpecRun(s, events[..n]), events[n]);
    }
  }

  lemma RejectionPersists(s: Spec, s': Spec, token: nat)
    requires WellFormed(s) && WellFormed(s') && Later(s, s') && token < |s.issued|
    requires SpecReply(s, token).Err?
    ensures SpecReply(s', token).Err?
  {
    if Stored(s', token) {
      assert s.issued[token] == s'.issued[token];
      var f := s.issued[token].family;
      if !LiveTip(s, token) && !s.sessions[f].dead {
        var tip := s.sessions[f].tip;
        assert s'.issued[tip].family == f && token < tip <= s'.sessions[f].tip;
      }
    }
  }

  /** A token that was issued and is once refused is refused for ever: no sweep, login, refresh or
      passage of time makes it good again. */
  lemma RejectedForever(now: int, lifetime: nat, events: seq<Event>, more: seq<Event>, token: nat)
    requires
      var db := DbAfter(now, lifetime, events);
      token < db.nextToken && Refresh(db, token).1.Err?
    ensures Refresh(Run(DbAfter(now, lifetime, events), more), token).1.Err?
  {
    var db, s := DbAfter(now, lifetime, events), History(now, lifetime, events);
    ReachableRefines(now, lifetime, events);
    MatchEach(db, s, token);
    ReplyAgrees(db, s, token);
    RunIsLater(db, s, more);
    RunRefines(db, s, more);
    var db', s' := Run(db, more), SpecRun(s, more);
    MatchEach(db', s', token);
    ReplyAgrees(db', s', token);
    RejectionPersists(s, s', token);
  }

  ghost predicate AllRevoked(db: Db, family: nat) {
    forall h :: h in db.docs && db.docs[h].family == family ==> db.docs[h].revoked
  }

  lemma AllRevokedIffNothingLive(db: Db, s: Spec, family: nat)
    requires Refines(db, s) && family < |s.sessions|
    ensures AllRevoked(db, family) <==> NothingLive(s, family)
  {
    MatchEach(db, s, s.sessions[family].tip);
  }

  /** Each family belongs to one user and holds at most one unrevoked token. */
  lemma OneLiveTokenPerFamily(now: int, lifetime: nat, events: seq<Event>, h1: Hash, h2: Hash)
    ensures
      var docs := DbAfter(now, lifetime, events).docs;
      h1 in docs && h2 in docs && docs[h1].family == docs[h2].family ==>
        && docs[h1].user == docs[h2].user
        && (!docs[h1].revoked && !docs[h2].revoked ==> h1 == h2)
  {
    ReachableRefines(now, lifetime, events);
    var db, s := DbAfter(now, lifetime, events), History(now, lifetime, events);
    MatchEach(db, s, h1.token);
    MatchEach(db, s, h2.token);
    assert h1 == Sha256(h1.token) && h2 == Sha256(h2.token);
  }

  lemma StaysRevoked(db: Db, s: Spec, family: nat, more: seq<Event>)
    requires Refines(db, s) && family < |s.sessions| && AllRevoked(db, family)
    ensures AllRevoked(Run(db, more), family)
  {
    AllRevokedIffNothingLive(db, s, family);
    RunIsLater(db, s, more);
    RunRefines(db, s, more);
    AllRevokedIffNothingLive(Run(db, more), SpecRun(s, more), family);
  }

  /** What a logout and a replay do to the collection: the token's family is revoked, no document goes
      or comes, and every other family is left as it was. */
  lemma RevocationIsLocal(db: Db, token: nat)
    requires Sha256(token) in db.docs
    ensures
      var family := db.docs[Sha256(token)].family;
      var out := LogOut(db, token);
      && AllRevoked(out, family)
      && (db.docs[Sha256(token)].revoked ==> Refresh(db, token).0 == out)
      && out.docs.Keys == db.docs.Keys
      && (forall h :: h in db.docs && db.docs[h].family != family ==> out.docs[h] == db.docs[h])
  {
  }

  /** Once a replay or a logout with a stored token has revoked a family, no later run puts an unrevoked
      token into it again. */
  lemma RevokedForever(now: int, lifetime: nat, events: seq<Event>, token: nat, more: seq<Event>)
    requires Sha256(token) in DbAfter(now, lifetime, events).docs
    ensures
      var db := DbAfter(now, lifetime, events);
      var family := db.docs[Sha256(token)].family;
      AllRevoked(Run(LogOut(db, token), more), family)
      && (db.docs[Sha256(token)].revoked ==> AllRevoked(Run(Refresh(db, token).0, more), family))
  {
    var db, s := DbAfter(now, lifetime, events), History(now, lifetime, events);
    var family := db.docs[Sha256(token)].family;
    ReachableRefines(now, lifetime, events);
    MatchEach(db, s, token);
    RevocationIsLocal(db, token);
    var out, s1 := LogOut(db, token), SpecApply(s, LoggedOut(token));
    LogOutRefines(db, s, token);
    StaysRevoked(out, s1, family, more);
  }

  /** A successful refresh revokes the presented token, stores one fresh token in the same family for
      the same user, and leaves every other document as it was. */
  lemma RotationIsLocal(now: int, lifetime: nat, events: seq<Event>, token: nat)
    ensures
      var db := DbAfter(now, lifetime, events);
      var (db', reply) := Refresh(db, token);
      reply.Ok? ==>
        && Sha256(token) in db.docs && Sha256(reply.value) !in db.docs
        && db'.docs.Keys == db.docs.Keys + {Sha256(reply.value)}
        && db'.docs[Sha256(token)].revoked
        && db'.docs[Sha256(reply.value)] ==
             Doc(db.docs[Sha256(token)].user, db.docs[Sha256(token)].family, false, db.now + lifetime)
        && (forall h :: h in db.docs && h != Sha256(token) ==> db'.docs[h] == db.docs[h])
  {
    var db, s := DbAfter(now, lifetime, events), History(now, lifetime, events);
    ReachableRefines(now, lifetime, events);
    MatchEach(db, s, token);
    MatchEach(db, s, db.nextToken);
    LifetimeIsConstant(Init(now, lifetime), events);
  }

  lemma {:induction false} LifetimeIsConstant(db: Db, events: seq<Event>)
    ensures Run(db, events).lifetime == db.lifetime
  {
    if events != [] {
      LifetimeIsConstant(db, events[..|events| - 1]);
    }
  }

  // ---------------------------------------------------------------- what a login hands out

  /** A login succeeds for an existing user with good credentials, and a signup always; each hands out a
      token that did not exist, good for its user, in a family that did not exist, and changes no other. */
  lemma SessionsAreFresh(now: int, lifetime: nat, events: seq<Event>, user: nat, valid: bool)
    ensures
      var db := DbAfter(now, lifetime, events);
      var (login, reply) := LogIn(db, user, valid);
      && (reply.Ok? <==> user in db.users && valid)
      && (reply.Err? ==> reply == Err(InvalidCredentials) && login == db)
      && (reply.Ok? ==> HandsOut(db, login, reply.value, user))
    ensures
      var db := DbAfter(now, lifetime, events);
      var (signup, reply) := SignUp(db);
      reply.Ok? && db.nextUser !in db.users && HandsOut(db, signup, reply.value, db.nextUser)
  {
    var db, s := DbAfter(now, lifetime, events), History(now, lifetime, events);
    ReachableRefines(now, lifetime, events);
    MatchEach(db, s, db.nextToken);
    forall h | h in db.docs
      ensures db.docs[h].family != db.nextFamily
    {
      MatchEach(db, s, h.token);
    }
  }

  /** The token is new, its family is new, and it is the user's. */
  ghost predicate HandsOut(db: Db, db': Db, token: nat, user: nat) {
    && Sha256(token) !in db.docs
    && (forall h :: h in db.docs ==> db.docs[h].family != db.nextFamily)
    && db'.docs == db.docs[Sha256(token) := Doc(user, db.nextFamily, false, db.now + db.lifetime)]
    && user in db'.users && db'.now == db.now
  }

  /** What is handed out can be used: for as long as the token has not expired, a refresh with it succeeds,
      and rotates it for the same user. */
  lemma HandedOutWorks(db: Db, db': Db, token: nat, user: nat, ms: nat)
    requires HandsOut(db, db', token, user) && ms <= db.lifetime
    ensures
      var (later, reply) := Refresh(db'.(now := db'.now + ms), token);
      && reply.Ok?
      && Sha256(reply.value) in later.docs && later.docs[Sha256(reply.value)].user == user
      && !later.docs[Sha256(reply.value)].revoked
  {
  }

  // ---------------------------------------------------------------- expiry follows issue order

  lemma ApplyKeepsExpiryOrder(s: Spec, e: Event)
    requires ExpiryOrdered(s)
    ensures ExpiryOrdered(SpecApply(s, e))
  {
    var s' := SpecApply(s, e);
    assert s'.lifetime == s.lifetime && s.now <= s'.now;
    if s'.issued != s.issued {
      var n := |s.issued|;
      assert s'.now == s.now && |s'.issued| == n + 1;
      assert s'.issued[..n] == s.issued && s'.issued[n].expiresAt == s.now + s.lifetime;
      assert forall t :: 0 <= t < n ==> s'.issued[t] == s.issued[t];
    }
  }

  lemma {:induction false} HistoryIsExpiryOrdered(now: int, lifetime: nat, events: seq<Event>)
    ensures ExpiryOrdered(History(now, lifetime, events))
  {
    if events != [] {
      HistoryIsExpiryOrdered(now, lifetime, events[..|events| - 1]);
      ApplyKeepsExpiryOrder(History(now, lifetime, events[..|events| - 1]), events[|events| - 1]);
    }
  }

  /** A full sweep takes the tokens that have expired, and so a prefix of each family's chain: if an older
      token survives it, so does every younger one that was there. */
  lemma SweepTakesPrefix(now: int, lifetime: nat, events: seq<Event>, older: nat, younger: nat)
    requires older <= younger
    ensures
      var db := DbAfter(now, lifetime, events);
      var swept := SweepDocs(db, db.docs.Keys);
      && (Sha256(older) in swept.docs && Sha256(younger) in db.docs ==>
            && Sha256(younger) in swept.docs
            && swept.docs[Sha256(younger)] == db.docs[Sha256(younger)])
      && (Sha256(older) in swept.docs <==>
            Sha256(older) in db.docs && db.now < db.docs[Sha256(older)].expiresAt)
  {
    var db, s := DbAfter(now, lifetime, events), History(now, lifetime, events);
    ReachableRefines(now, lifetime, events);
    HistoryIsExpiryOrdered(now, lifetime, events);
    MatchEach(db, s, older);
    MatchEach(db, s, younger);
  }

  // ---------------------------------------------------------------- the service

  /** A password hash is good for one password only. */
  datatype PasswordHash = Argon2(password: string)

  /** An account made through a sign-in provider has no password. */
  datatype Account = Account(user: nat, password: Option<PasswordHash>)

  class AuthService {
    var accounts: map<string, Account>
    var docs: map<Hash, Doc>
    var users: map<nat, Option<nat>>
    var now: int
    var nextToken: nat
    var nextFamily: nat
    var nextUser: nat
    const lifetime: nat
    const lower: string -> string

    constructor (start: int, lifetime: nat, lower: string -> string)
      ensures View() == Init(start, lifetime) && accounts == map[] && this.lower == lower && Valid()
    {
      accounts, docs, users, now := map[], map[], map[], start;
      nextToken, nextFamily, nextUser := 0, 0, 0;
      this.lifetime, this.lower := lifetime, lower;
    }

    /** Every account is some user's, and the next numbers are unused. */
    ghost predicate Valid()
      reads this
    {
      && (forall email :: email in accounts ==> accounts[email].user in users)
      && (forall h :: h in docs ==> h.token < nextToken && docs[h].family < nextFamily)
      && (forall u :: u in users ==> u < nextUser)
    }

    function View(): Db
      reads this
    {
      Db(docs, users, now, nextToken, nextFamily, nextUser, lifetime)
    }

    /** Refused if the email, compared in lower case, is taken. Otherwise the reply is a token that did not
        exist, good for a user that did not exist, in a family that did not exist. */
    method Signup(email: string, password: string) returns (reply: Reply)
      requires Valid()
      modifies this
      ensures Valid()
      ensures reply.Err? <==> lower(email) in old(accounts)
      ensures reply.Err? ==> reply == Err(EmailTaken) && View() == old(View()) && accounts == old(accounts)
      ensures reply.Ok? ==>
                && old(nextUser) !in old(users) && Sha256(reply.value) !in old(docs)
                && (forall h :: h in old(docs) ==> old(docs)[h].family != old(nextFamily))
                && accounts == old(accounts)[lower(email) := Account(old(nextUser), Some(Argon2(password)))]
                && users == old(users)[old(nextUser) := Some(old(nextFamily))]
                && docs == old(docs)[Sha256(reply.value) := Doc(old(nextUser), old(nextFamily), false, now + lifetime)]
      ensures reply.Ok? ==> (View(), reply) == SignUp(old(View()))
    {
      if lower(email) in accounts {
        return Err(EmailTaken);
      }
      var user := nextUser;
      accounts := accounts[lower(email) := Account(user, Some(Argon2(password)))];
      nextUser := nextUser + 1;
      users := users[user := None];
      var token := CreateTokenPair(user, None);
      reply := Ok(token);
    }

    /** One answer for an unknown email, an account without a password and a wrong password. Otherwise the
        reply is a token that did not exist, good for the account's user, in a family that did not exist. */
    method Login(email: string, password: string) returns (reply: Reply)
      requires Valid()
      modifies this
      ensures Valid() && accounts == old(accounts)
      ensures reply.Ok? <==> lower(email) in accounts && accounts[lower(email)].password == Some(Argon2(password))
      ensures reply.Err? ==> reply == Err(InvalidCredentials) && View() == old(View())
      ensures reply.Ok? ==>
                var user := accounts[lower(email)].user;
                && Sha256(reply.value) !in old(docs)
                && (forall h :: h in old(docs) ==> old(docs)[h].family != old(nextFamily))
                && users == old(users)[user := Some(old(nextFamily))]
                && docs == old(docs)[Sha256(reply.value) := Doc(user, old(nextFamily), false, now + lifetime)]
      ensures reply.Ok? ==> (View(), reply) == LogIn(old(View()), accounts[lower(email)].user, true)
    {
      if lower(email) !in accounts || accounts[lower(email)].password.None? {
        return Err(InvalidCredentials);
      }
      var account := accounts[lower(email)];
      if account.password.value != Argon2(password) {
        return Err(InvalidCredentials);
      }
      var token := CreateTokenPair(account.user, None);
      reply := Ok(token);
    }

    /** Each refusal when it is due, in this order; otherwise the presented token is revoked and the reply is
        a token that did not exist, for the same user and family. */
    method RefreshToken(token: nat) returns (reply: Reply)
      requires Valid()
      modifies this
      ensures Valid() && accounts == old(accounts)
      ensures
        var h := Sha256(token);
        if h !in old(docs) then reply == Err(InvalidToken) && View() == old(View())
        else
          var existing := old(docs)[h];
          if existing.revoked then
            reply == Err(SessionRevoked) && users == old(users) && Revoked(old(docs), existing.family)
          else if existing.expiresAt < now then reply == Err(TokenExpired) && View() == old(View())
          else if existing.user !in old(users) then reply == Err(AccountGone) && View() == old(View())
          else
            && reply.Ok? && Sha256(reply.value) !in old(docs)
            && users == old(users)[existing.user := Some(existing.family)]
            && docs == old(docs)[h := Doc(existing.user, existing.family, true, existing.expiresAt)]
                       [Sha256(reply.value) := Doc(existing.user, existing.family, false, now + lifetime)]
      ensures (View(), reply) == Refresh(old(View()), token)
    {
      var tokenHash := Sha256(token);
      if tokenHash !in docs {
        return Err(InvalidToken);
      }
      var existing := docs[tokenHash];
      if existing.revoked {
        docs := RevokeFamily(docs, existing.family);
        return Err(SessionRevoked);
      }
      if existing.expiresAt < now {
        return Err(TokenExpired);
      }
      if existing.user !in users {
        return Err(AccountGone);
      }
      docs := docs[tokenHash := existing.(revoked := true)];
      var next := CreateTokenPair(existing.user, Some(existing.family));
      reply := Ok(next);
    }

    /** The documents are as before, but for the family, which is revoked. */
    ghost predicate Revoked(before: map<Hash, Doc>, family: nat)
      reads this
    {
      && docs.Keys == before.Keys
      && (forall h :: h in before && before[h].family != family ==> docs[h] == before[h])
      && (forall h :: h in before && before[h].family == family ==>
            docs[h] == Doc(before[h].user, family, true, before[h].expiresAt))
    }

    method Logout(token: nat)
      requires Valid()
      modifies `docs
      ensures Valid()
      ensures Sha256(token) !in old(docs) ==> docs == old(docs)
      ensures Sha256(token) in old(docs) ==> Revoked(old(docs), old(docs)[Sha256(token)].family)
      ensures View() == LogOut(old(View()), token)
    {
      var tokenHash := Sha256(token);
      if tokenHash !in docs {
        return;
      }
      docs := RevokeFamily(docs, docs[tokenHash].family);
    }

    method CreateTokenPair(user: nat, existingFamily: Option<nat>) returns (token: nat)
      modifies this
      ensures accounts == old(accounts) && now == old(now) && nextUser == old(nextUser)
      ensures token == old(nextToken) && nextToken == token + 1
      ensures
        var family := if existingFamily.Some? then existingFamily.value else old(nextFamily);
        && nextFamily == (if existingFamily.Some? then old(nextFamily) else old(nextFamily) + 1)
        && docs == old(docs)[Sha256(token) := Doc(user, family, false, now + lifetime)]
        && users == old(users)[user := Some(family)]
    {
      var family;
      match existingFamily {
        case Some(f) => family := f;
        case None =>
          family := nextFamily;
          nextFamily := nextFamily + 1;
      }
      token := nextToken;
      nextToken := nextToken + 1;
      docs := docs[Sha256(token) := Doc(user, family, false, now + lifetime)];
      users := users[user := Some(family)];
    }
  }
}
