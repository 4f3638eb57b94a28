/** Refreshes, logouts and sweeps that overlap: every command on the token collection is a step of its own. */
module AuthOverlap {
  import opened Common
  import opened Auth

  /** Where a call stands. A refresh finds a good document, checks its user, saves the document as revoked
      and stores the next token; a replay and a logout have found a family to revoke. */
  datatype Pc =
    | Found(hash: Hash, doc: Doc)
    | Ready(hash: Hash, doc: Doc)
    | Saved(doc: Doc)
    | Revoking(family: nat)

  datatype Sys = Sys(db: Db, calls: map<nat, Pc>)

  /** `Background` stands for what is one command anyway: the fresh family of a signup or login, a sweep,
      an account removed, time passing. */
  datatype Step =
    | Background(e: Event)
    | ReadToken(call: nat, token: nat)
    | CheckUser(call: nat)
    | SaveRevoked(call: nat)
    | CreateToken(call: nat)
    | ReadForLogout(call: nat, token: nat)
    | RevokeAll(call: nat)

  predicate IsBackground(e: Event) {
    !e.Refreshed? && !e.LoggedOut?
  }

  /** Stores the next token of a family; the user, who may be gone by now, is not checked again. */
  function Create(db: Db, doc: Doc): Db {
    db.(docs := db.docs[Sha256(db.nextToken) := Doc(doc.user, doc.family, false, db.now + db.lifetime)],
        nextToken := db.nextToken + 1,
        users := if doc.user in db.users then db.users[doc.user := Some(doc.family)] else db.users)
  }

  predicate At(s: Sys, call: nat, pc: Pc) {
    call in s.calls && s.calls[call] == pc
  }

  function Go(s: Sys, call: nat, pc: Pc): Sys {
    s.(calls := s.calls[call := pc])
  }

  /** The end of a call, in success or failure. */
  function End(s: Sys, call: nat): Sys {
    s.(calls := s.calls - {call})
  }

  function Read(s: Sys, call: nat, token: nat): Sys {
    var h := Sha256(token);
    if call in s.calls || h !in s.db.docs then s
    else if s.db.docs[h].revoked then Go(s, call, Revoking(s.db.docs[h].family))
    else if s.db.docs[h].expiresAt < s.db.now then s
    else Go(s, call, Found(h, s.db.docs[h]))
  }

  /** Saving writes `revoked` and nothing else, and fails on a document that has been swept. */
  function Save(s: Sys, call: nat, h: Hash, doc: Doc): Sys {
    if h !in s.db.docs then End(s, call)
    else Go(s.(db := s.db.(docs := s.db.docs[h := s.db.docs[h].(revoked := true)])), call, Saved(doc))
  }

  function Do(s: Sys, step: Step): Sys {
    match step
    case Background(e) => if IsBackground(e) then s.(db := Apply(s.db, e)) else s
    case ReadToken(c, t) => Read(s, c, t)
    case CheckUser(c) =>
      if c !in s.calls || !s.calls[c].Found? then s
      else if s.calls[c].doc.user !in s.db.users then End(s, c)
      else Go(s, c, Ready(s.calls[c].hash, s.calls[c].doc))
    case SaveRevoked(c) =>
      if c !in s.calls || !s.calls[c].Ready? then s else Save(s, c, s.calls[c].hash, s.calls[c].doc)
    case CreateToken(c) =>
      if c !in s.calls || !s.calls[c].Saved? then s else End(s, c).(db := Create(s.db, s.calls[c].doc))
    case ReadForLogout(c, t) =>
      if c in s.calls || Sha256(t) !in s.db.docs then s else Go(s, c, Revoking(s.db.docs[Sha256(t)].family))
    case RevokeAll(c) =>
      if c !in s.calls || !s.calls[c].Revoking? then s
      else End(s, c).(db := s.db.(docs := RevokeFamily(s.db.docs, s.calls[c].family)))
  }

  function Steps(s: Sys, steps: seq<Step>): Sys {
    if steps == [] then s else Do(Steps(s, steps[..|steps| - 1]), steps[|steps| - 1])
  }

  function After(now: int, lifetime: nat, steps: seq<Step>): Sys {
    Steps(Sys(Auth.Init(now, lifetime), map[]), steps)
  }

  lemma StepsSnoc(s: Sys, steps: seq<Step>, step: Step)
    ensures Steps(s, steps + [step]) == Do(Steps(s, steps), step)
  {
    assert (steps + [step])[..|steps|] == steps;
  }

  lemma AfterNext(now: int, lifetime: nat, steps: seq<Step>, i: nat)
    requires i < |steps|
    ensures After(now, lifetime, steps[..i + 1]) == Do(After(now, lifetime, steps[..i]), steps[i])
  {
    assert steps[..i + 1] == steps[..i] + [steps[i]];
    StepsSnoc(Sys(Auth.Init(now, lifetime), map[]), steps[..i], steps[i]);
  }

  // ---------------------------------------------------------------- whole calls are runs

  lemma Then(s: Sys, steps: seq<Step>, step: Step) returns (steps': seq<Step>)
    ensures Steps(s, steps') == Do(Steps(s, steps), step)
  {
    steps' := steps + [step];
    StepsSnoc(s, steps, step);
  }

  /** A refresh that nothing interrupts is the refresh of the atomic model. */
  lemma WholeRefreshIsARun(s: Sys, call: nat, token: nat) returns (steps: seq<Step>)
    requires call !in s.calls
    ensures Steps(s, steps) == s.(db := Refresh(s.db, token).0)
  {
    var h := Sha256(token);
    var x1 := Then(s, [], ReadToken(call, token));
    assert Steps(s, []) == s;
    if h !in s.db.docs || (!s.db.docs[h].revoked && s.db.docs[h].expiresAt < s.db.now) {
      steps := x1;
    } else if s.db.docs[h].revoked {
      steps := Then(s, x1, RevokeAll(call));
      assert s.calls[call := Revoking(s.db.docs[h].family)] - {call} == s.calls;
    } else {
      steps := GoodRefreshRuns(s, call, token, x1);
    }
  }

  lemma GoodRefreshRuns(s: Sys, call: nat, token: nat, x1: seq<Step>) returns (steps: seq<Step>)
    requires call !in s.calls && Sha256(token) in s.db.docs && !s.db.docs[Sha256(token)].revoked
    requires s.db.docs[Sha256(token)].expiresAt >= s.db.now
    requires Steps(s, x1) == Go(s, call, Found(Sha256(token), s.db.docs[Sha256(token)]))
    ensures Steps(s, steps) == s.(db := Refresh(s.db, token).0)
  {
    var doc := s.db.docs[Sha256(token)];
    var x2 := Then(s, x1, CheckUser(call));
    if doc.user !in s.db.users {
      steps := x2;
      assert s.calls[call := Found(Sha256(token), doc)] - {call} == s.calls;
    } else {
      var x3 := Then(s, x2, SaveRevoked(call));
      steps := Then(s, x3, CreateToken(call));
      assert Steps(s, x3).calls - {call} == s.calls;
    }
  }

  lemma WholeLogoutIsARun(s: Sys, call: nat, token: nat) returns (steps: seq<Step>)
    requires call !in s.calls
    ensures Steps(s, steps) == s.(db := LogOut(s.db, token))
  {
    var x1 := Then(s, [], ReadForLogout(call, token));
    assert Steps(s, []) == s;
    steps := Then(s, x1, RevokeAll(call));
    if Sha256(token) in s.db.docs {
      assert Steps(s, x1).calls - {call} == s.calls;
    }
  }

  // ---------------------------------------------------------------- claims on a family

  /** What makes or will make a token of a family good: an unrevoked token, or a refresh that has revoked
      its own and is about to store the next. */
  datatype Claim = Token(hash: Hash) | Call(id: nat)

  predicate IsClaim(s: Sys, f: nat, x: Claim) {
    match x
    case Token(h) => h in s.db.docs && s.db.docs[h].family == f && !s.db.docs[h].revoked
    case Call(c) => c in s.calls && s.calls[c].Saved? && s.calls[c].doc.family == f
  }

  ghost predicate AtMostOne(s: Sys, f: nat) {
    forall x, y :: IsClaim(s, f, x) && IsClaim(s, f, y) ==> x == y
  }

  ghost predicate Unclaimed(s: Sys, f: nat) {
    forall x :: !IsClaim(s, f, x)
  }

  predicate Revokes(s: Sys, step: Step, f: nat) {
    step.RevokeAll? && At(s, step.call, Revoking(f))
  }

  /** The guard that the code lacks: a save finds its document still unrevoked, and a revocation finds no
      refresh of its family between its save and its insert. */
  ghost predicate GuardedStep(s: Sys, step: Step) {
    match step
    case SaveRevoked(c) =>
      c in s.calls && s.calls[c].Ready? && s.calls[c].hash in s.db.docs ==> !s.db.docs[s.calls[c].hash].revoked
    case RevokeAll(c) =>
      c in s.calls && s.calls[c].Revoking? ==>
        forall k :: k in s.calls && s.calls[k].Saved? ==> s.calls[k].doc.family != s.calls[c].family
    case _ => true
  }

  /** What a call remembers is about documents and families that exist or have existed. */
  predicate CallInv(db: Db, pc: Pc) {
    match pc
    case Found(h, doc) => Remembers(db, h, doc)
    case Ready(h, doc) => Remembers(db, h, doc)
    case Saved(doc) => doc.family < db.nextFamily
    case Revoking(f) => f < db.nextFamily
  }

  predicate Remembers(db: Db, h: Hash, doc: Doc) {
    && h.token < db.nextToken && doc.family < db.nextFamily
    && (h in db.docs ==> db.docs[h].family == doc.family)
  }

  ghost predicate Inv(s: Sys) {
    && (forall h :: h in s.db.docs ==> h.token < s.db.nextToken && s.db.docs[h].family < s.db.nextFamily)
    && (forall c :: c in s.calls ==> CallInv(s.db, s.calls[c]))
  }

  lemma BackgroundKeepsInv(s: Sys, e: Event)
    requires Inv(s) && IsBackground(e)
    ensures Inv(s.(db := Apply(s.db, e)))
  {
    var db' := Apply(s.db, e);
    forall c | c in s.calls
      ensures CallInv(db', s.calls[c])
    {
      assert CallInv(s.db, s.calls[c]);
    }
  }

  lemma SaveKeepsInv(s: Sys, c: nat)
    requires Inv(s)
    ensures Inv(Do(s, SaveRevoked(c)))
  {
  }

  lemma CreateKeepsInv(s: Sys, c: nat)
    requires Inv(s)
    ensures Inv(Do(s, CreateToken(c)))
  {
    assert c in s.calls ==> CallInv(s.db, s.calls[c]);
  }

  lemma ReadKeepsInv(s: Sys, step: Step)
    requires Inv(s) && (step.ReadToken? || step.CheckUser? || step.ReadForLogout? || step.RevokeAll?)
    ensures Inv(Do(s, step))
  {
  }

  lemma DoKeepsInv(s: Sys, step: Step)
    requires Inv(s)
    ensures Inv(Do(s, step))
  {
    match step
    case Background(e) =>
      if IsBackground(e) {
        BackgroundKeepsInv(s, e);
      }
    case SaveRevoked(c) => SaveKeepsInv(s, c);
    case CreateToken(c) => CreateKeepsInv(s, c);
    case _ => ReadKeepsInv(s, step);
  }

  lemma {:induction false} RunKeepsInv(now: int, lifetime: nat, steps: seq<Step>)
    ensures Inv(After(now, lifetime, steps))
  {
    if steps != [] {
      RunKeepsInv(now, lifetime, steps[..|steps| - 1]);
      DoKeepsInv(After(now, lifetime, steps[..|steps| - 1]), steps[|steps| - 1]);
    }
  }

  // ---------------------------------------------------------------- one step

  /** A step keeps a family in order: one claim at most, none where there was none, none after a revocation. */
  ghost predicate Kept(s: Sys, s': Sys, step: Step, f: nat) {
    && AtMostOne(s', f)
    && (f < s.db.nextFamily && Unclaimed(s, f) ==> Unclaimed(s', f))
    && (Revokes(s, step, f) ==> Unclaimed(s', f))
  }

  lemma BackgroundKeeps(s: Sys, e: Event, f: nat)
    requires Inv(s) && AtMostOne(s, f) && IsBackground(e)
    ensures Kept(s, s.(db := Apply(s.db, e)), Background(e), f)
  {
    var s' := s.(db := Apply(s.db, e));
    if f < s.db.nextFamily {
      forall x | IsClaim(s', f, x)
        ensures IsClaim(s, f, x)
      {
      }
    } else {
      forall x | IsClaim(s', f, x)
        ensures x == Token(Sha256(s.db.nextToken))
      {
        assert x.Call? ==> CallInv(s.db, s.calls[x.id]);
      }
    }
  }

  /** A save takes the place of the token that it revokes, or adds a claim. */
  lemma SaveKeeps(s: Sys, c: nat, f: nat)
    requires Inv(s) && AtMostOne(s, f) && GuardedStep(s, SaveRevoked(c))
    ensures Kept(s, Do(s, SaveRevoked(c)), SaveRevoked(c), f)
  {
    var s' := Do(s, SaveRevoked(c));
    if c in s.calls && s.calls[c].Ready? && s.calls[c].hash in s.db.docs {
      var h := s.calls[c].hash;
      assert CallInv(s.db, s.calls[c]);
      forall x | IsClaim(s', f, x)
        ensures if x == Call(c) then IsClaim(s, f, Token(h)) else IsClaim(s, f, x) && x != Token(h)
      {
      }
    } else {
      forall x | IsClaim(s', f, x)
        ensures IsClaim(s, f, x)
      {
      }
    }
  }

  /** An insert turns its call's claim into a token. */
  lemma CreateKeeps(s: Sys, c: nat, f: nat)
    requires Inv(s) && AtMostOne(s, f)
    ensures Kept(s, Do(s, CreateToken(c)), CreateToken(c), f)
  {
    var s' := Do(s, CreateToken(c));
    var next := Token(Sha256(s.db.nextToken));
    forall x | IsClaim(s', f, x)
      ensures if x == next && s' != s then IsClaim(s, f, Call(c)) else IsClaim(s, f, x) && (s' != s ==> x != Call(c))
    {
    }
  }

  lemma RevokeKeeps(s: Sys, c: nat, f: nat)
    requires AtMostOne(s, f) && GuardedStep(s, RevokeAll(c))
    ensures Kept(s, Do(s, RevokeAll(c)), RevokeAll(c), f)
  {
    var s' := Do(s, RevokeAll(c));
    forall x | IsClaim(s', f, x)
      ensures IsClaim(s, f, x)
    {
    }
  }

  lemma ReadKeeps(s: Sys, step: Step, f: nat)
    requires AtMostOne(s, f) && (step.ReadToken? || step.CheckUser? || step.ReadForLogout?)
    ensures Kept(s, Do(s, step), step, f)
  {
    var s' := Do(s, step);
    forall x | IsClaim(s', f, x)
      ensures IsClaim(s, f, x)
    {
    }
  }

  lemma GuardedStepKeeps(s: Sys, step: Step, f: nat)
    requires Inv(s) && AtMostOne(s, f) && GuardedStep(s, step)
    ensures Kept(s, Do(s, step), step, f)
  {
    match step
    case Background(e) =>
      if IsBackground(e) {
        BackgroundKeeps(s, e, f);
      }
    case SaveRevoked(c) => SaveKeeps(s, c, f);
    case CreateToken(c) => CreateKeeps(s, c, f);
    case RevokeAll(c) => RevokeKeeps(s, c, f);
    case _ => ReadKeeps(s, step, f);
  }

  /** An unguarded step breaks the order of its family at once. */
  lemma UnguardedStepBreaks(s: Sys, step: Step) returns (f: nat)
    requires Inv(s) && !GuardedStep(s, step)
    ensures !Kept(s, Do(s, step), step, f)
  {
    var s' := Do(s, step);
    var c := step.call;
    assert CallInv(s.db, s.calls[c]);
    if step.SaveRevoked? {
      f := s.calls[c].doc.family;
      assert IsClaim(s', f, Call(c));
      if x :| IsClaim(s, f, x) {
        assert IsClaim(s', f, x) && x != Call(c);
      }
    } else {
      f := s.calls[c].family;
      var k :| k in s.calls && s.calls[k].Saved? && s.calls[k].doc.family == f;
      assert IsClaim(s', f, Call(k));
    }
  }

  // ---------------------------------------------------------------- whole runs

  /** At every moment at most one token of each family is good or about to be. */
  ghost predicate OneClaim(now: int, lifetime: nat, steps: seq<Step>) {
    forall i, f: nat :: 0 <= i <= |steps| ==> AtMostOne(After(now, lifetime, steps[..i]), f)
  }

  /** A family whose tokens are all revoked, with no refresh about to add one, stays so. */
  ghost predicate StaysUnclaimed(now: int, lifetime: nat, steps: seq<Step>) {
    forall i, j, f: nat :: 0 <= i <= j <= |steps| ==>
      var s := After(now, lifetime, steps[..i]);
      f < s.db.nextFamily && Unclaimed(s, f) ==> Unclaimed(After(now, lifetime, steps[..j]), f)
  }

  /** A family that a logout or a replay has revoked never has a good token again. */
  ghost predicate RevocationLasts(now: int, lifetime: nat, steps: seq<Step>) {
    forall i, j, f: nat :: 0 <= i < j <= |steps| && Revokes(After(now, lifetime, steps[..i]), steps[i], f) ==>
      Unclaimed(After(now, lifetime, steps[..j]), f)
  }

  ghost predicate Guarded(now: int, lifetime: nat, steps: seq<Step>) {
    forall i :: 0 <= i < |steps| ==> GuardedStep(After(now, lifetime, steps[..i]), steps[i])
  }

  lemma {:induction false} GuardedHasOneClaim(now: int, lifetime: nat, steps: seq<Step>, i: nat, f: nat)
    requires Guarded(now, lifetime, steps) && i <= |steps|
    ensures AtMostOne(After(now, lifetime, steps[..i]), f)
  {
    if i > 0 {
      var s := After(now, lifetime, steps[..i - 1]);
      GuardedHasOneClaim(now, lifetime, steps, i - 1, f);
      RunKeepsInv(now, lifetime, steps[..i - 1]);
      AfterNext(now, lifetime, steps, i - 1);
      GuardedStepKeeps(s, steps[i - 1], f);
    }
  }

  lemma FamiliesStayOpen(s: Sys, step: Step)
    ensures s.db.nextFamily <= Do(s, step).db.nextFamily
  {
  }

  lemma {:induction false} GuardedStaysUnclaimed(now: int, lifetime: nat, steps: seq<Step>, i: nat, j: nat, f: nat)
    requires Guarded(now, lifetime, steps) && i <= j <= |steps|
    requires f < After(now, lifetime, steps[..i]).db.nextFamily && Unclaimed(After(now, lifetime, steps[..i]), f)
    ensures f < After(now, lifetime, steps[..j]).db.nextFamily && Unclaimed(After(now, lifetime, steps[..j]), f)
    decreases j
  {
    if i < j {
      var s := After(now, lifetime, steps[..j - 1]);
      GuardedStaysUnclaimed(now, lifetime, steps, i, j - 1, f);
      GuardedHasOneClaim(now, lifetime, steps, j - 1, f);
      RunKeepsInv(now, lifetime, steps[..j - 1]);
      AfterNext(now, lifetime, steps, j - 1);
      GuardedStepKeeps(s, steps[j - 1], f);
      FamiliesStayOpen(s, steps[j - 1]);
    }
  }

  lemma GuardedRevocationLasts(now: int, lifetime: nat, steps: seq<Step>, i: nat, j: nat, f: nat)
    requires Guarded(now, lifetime, steps) && i < j <= |steps|
    requires Revokes(After(now, lifetime, steps[..i]), steps[i], f)
    ensures Unclaimed(After(now, lifetime, steps[..j]), f)
  {
    var s := After(now, lifetime, steps[..i]);
    RunKeepsInv(now, lifetime, steps[..i]);
    assert CallInv(s.db, s.calls[steps[i].call]);
    GuardedHasOneClaim(now, lifetime, steps, i, f);
    AfterNext(now, lifetime, steps, i);
    GuardedStepKeeps(s, steps[i], f);
    FamiliesStayOpen(s, steps[i]);
    GuardedStaysUnclaimed(now, lifetime, steps, i + 1, j, f);
  }

  lemma KeptMeansGuarded(s: Sys, step: Step)
    requires Inv(s) && forall f :: Kept(s, Do(s, step), step, f)
    ensures GuardedStep(s, step)
  {
    if !GuardedStep(s, step) {
      var f := UnguardedStepBreaks(s, step);
    }
  }

  lemma OrderMeansGuarded(now: int, lifetime: nat, steps: seq<Step>, i: nat)
    requires OneClaim(now, lifetime, steps) && StaysUnclaimed(now, lifetime, steps)
    requires RevocationLasts(now, lifetime, steps) && i < |steps|
    ensures GuardedStep(After(now, lifetime, steps[..i]), steps[i])
  {
    var n := i + 1;
    var s, s' := After(now, lifetime, steps[..i]), After(now, lifetime, steps[..n]);
    RunKeepsInv(now, lifetime, steps[..i]);
    AfterNext(now, lifetime, steps, i);
    forall f
      ensures Kept(s, s', steps[i], f)
    {
      assert AtMostOne(After(now, lifetime, steps[..n]), f);
    }
    KeptMeansGuarded(s, steps[i]);
  }

  /** For every interleaving: the families stay in order, with at most one good token each and none ever
      again once they are revoked, if and only if every save finds its document unrevoked and no
      revocation falls between the save and the insert of a refresh of its family. */
  lemma OverlapExactly(now: int, lifetime: nat, steps: seq<Step>)
    ensures
      && OneClaim(now, lifetime, steps)
      && StaysUnclaimed(now, lifetime, steps)
      && RevocationLasts(now, lifetime, steps)
      <==> Guarded(now, lifetime, steps)
  {
    if Guarded(now, lifetime, steps) {
      forall i, f: nat | 0 <= i <= |steps|
        ensures AtMostOne(After(now, lifetime, steps[..i]), f)
      {
        GuardedHasOneClaim(now, lifetime, steps, i, f);
      }
      forall i, j, f: nat | 0 <= i <= j <= |steps| && f < After(now, lifetime, steps[..i]).db.nextFamily
                            && Unclaimed(After(now, lifetime, steps[..i]), f)
        ensures Unclaimed(After(now, lifetime, steps[..j]), f)
      {
        GuardedStaysUnclaimed(now, lifetime, steps, i, j, f);
      }
      forall i, j, f: nat | 0 <= i < j <= |steps| && Revokes(After(now, lifetime, steps[..i]), steps[i], f)
        ensures Unclaimed(After(now, lifetime, steps[..j]), f)
      {
        GuardedRevocationLasts(now, lifetime, steps, i, j, f);
      }
    } else if OneClaim(now, lifetime, steps) && StaysUnclaimed(now, lifetime, steps)
              && RevocationLasts(now, lifetime, steps) {
      forall i | 0 <= i < |steps|
        ensures GuardedStep(After(now, lifetime, steps[..i]), steps[i])
      {
        OrderMeansGuarded(now, lifetime, steps, i);
      }
      assert false;
    }
  }

  /** What the guard buys, on the documents: one unrevoked token per family at most, and none in a family
      that any logout or replay has revoked before. */
  lemma GuardedFamilies(now: int, lifetime: nat, steps: seq<Step>, h1: Hash, h2: Hash)
    requires Guarded(now, lifetime, steps)
    ensures
      var docs := After(now, lifetime, steps).db.docs;
      && (h1 in docs && h2 in docs && docs[h1].family == docs[h2].family && !docs[h1].revoked && !docs[h2].revoked
          ==> h1 == h2)
      && (h1 in docs && (exists i :: 0 <= i < |steps|
                           && Revokes(After(now, lifetime, steps[..i]), steps[i], docs[h1].family))
          ==> docs[h1].revoked)
  {
    var n := |steps|;
    var s := After(now, lifetime, steps);
    assert steps[..n] == steps;
    if h1 in s.db.docs {
      var f := s.db.docs[h1].family;
      GuardedHasOneClaim(now, lifetime, steps, n, f);
      assert !s.db.docs[h1].revoked ==> IsClaim(s, f, Token(h1));
      assert h2 in s.db.docs && s.db.docs[h2].family == f && !s.db.docs[h2].revoked ==> IsClaim(s, f, Token(h2));
      if i :| 0 <= i < n && Revokes(After(now, lifetime, steps[..i]), steps[i], f) {
        GuardedRevocationLasts(now, lifetime, steps, i, n, f);
        assert !IsClaim(s, f, Token(h1));
      }
    }
  }

  // ---------------------------------------------------------------- saves and inserts that stay together

  /** Every save that goes through is followed at once by its own insert: a refresh writes in one piece. */
  ghost predicate WritesTogether(now: int, lifetime: nat, steps: seq<Step>) {
    forall i, c: nat ::
      Writing(now, lifetime, steps, i, c) && i < |steps| ==> steps[i] == CreateToken(c)
  }

  /** Call `c` stands between its save and its insert when step `i` comes. */
  predicate Writing(now: int, lifetime: nat, steps: seq<Step>, i: int, c: nat) {
    0 <= i <= |steps| && var s := After(now, lifetime, steps[..i]); c in s.calls && s.calls[c].Saved?
  }

  /** A save finds its document unrevoked. */
  predicate SaveFindsUnrevoked(s: Sys, step: Step) {
    step.SaveRevoked? && step.call in s.calls && s.calls[step.call].Ready? && s.calls[step.call].hash in s.db.docs
    ==> !s.db.docs[s.calls[step.call].hash].revoked
  }

  /** If refreshes write in one piece, the first half of the guard is all of it. */
  lemma WritesTogetherExactly(now: int, lifetime: nat, steps: seq<Step>)
    requires WritesTogether(now, lifetime, steps)
    ensures
      && OneClaim(now, lifetime, steps)
      && StaysUnclaimed(now, lifetime, steps)
      && RevocationLasts(now, lifetime, steps)
      <==> forall i :: 0 <= i < |steps| ==> SaveFindsUnrevoked(After(now, lifetime, steps[..i]), steps[i])
  {
    OverlapExactly(now, lifetime, steps);
    forall i | 0 <= i < |steps|
      ensures GuardedStep(After(now, lifetime, steps[..i]), steps[i])
              <==> SaveFindsUnrevoked(After(now, lifetime, steps[..i]), steps[i])
    {
      var s := After(now, lifetime, steps[..i]);
      if steps[i].RevokeAll? {
        forall c | c in s.calls
          ensures !s.calls[c].Saved?
        {
          assert !Writing(now, lifetime, steps, i, c);
        }
      }
    }
  }

  // ---------------------------------------------------------------- what shows in the collection

  predicate IsLive(db: Db, h: Hash, f: nat) {
    h in db.docs && db.docs[h].family == f && !db.docs[h].revoked
  }

  ghost predicate TwoLive(db: Db, f: nat) {
    exists h1, h2 :: h1 != h2 && IsLive(db, h1, f) && IsLive(db, h2, f)
  }

  predicate AllInserts(steps: seq<Step>) {
    forall i :: 0 <= i < |steps| ==> steps[i].CreateToken?
  }

  /** By step `k` the family has been revoked, or has stood with every token revoked and no refresh about
      to insert one. */
  ghost predicate GivenUp(now: int, lifetime: nat, steps: seq<Step>, k: nat, f: nat)
    requires k <= |steps|
  {
    exists i :: 0 <= i <= k && GivenUpAt(now, lifetime, steps, k, i, f)
  }

  ghost predicate GivenUpAt(now: int, lifetime: nat, steps: seq<Step>, k: nat, i: nat, f: nat)
    requires i <= k <= |steps|
  {
    var s := After(now, lifetime, steps[..i]);
    (f < s.db.nextFamily && Unclaimed(s, f)) || (i < k && Revokes(s, steps[i], f))
  }

  /** Once the refreshes under way at step `k` have inserted their tokens, some in `more`, the collection
      has two unrevoked tokens in one family, or one in a family that was given up. */
  ghost predicate Breaks(now: int, lifetime: nat, steps: seq<Step>, k: nat, more: seq<Step>, f: nat) {
    k <= |steps| && AllInserts(more) &&
    var db := Steps(After(now, lifetime, steps[..k]), more).db;
    TwoLive(db, f) || (GivenUp(now, lifetime, steps, k, f) && !AllRevoked(db, f))
  }

  lemma ClaimComesTrue(s: Sys, f: nat, c: nat, y: Claim)
    requires Inv(s) && IsClaim(s, f, Call(c))
    ensures
      var s', next := Do(s, CreateToken(c)), Sha256(s.db.nextToken);
      && Inv(s') && IsLive(s'.db, next, f)
      && (IsClaim(s, f, y) && y != Call(c) ==> IsClaim(s', f, y) && y != Token(next))
  {
    CreateKeepsInv(s, c);
  }

  lemma OneComesTrue(s: Sys, f: nat, x: Claim) returns (more: seq<Step>, h: Hash)
    requires Inv(s) && IsClaim(s, f, x)
    ensures AllInserts(more) && IsLive(Steps(s, more).db, h, f)
  {
    match x
    case Token(hash) => more, h := [], hash;
    case Call(c) =>
      ClaimComesTrue(s, f, c, x);
      StepsSnoc(s, [], CreateToken(c));
      more, h := [] + [CreateToken(c)], Sha256(s.db.nextToken);
  }

  lemma TwoComeTrue(s: Sys, f: nat, x: Claim, y: Claim) returns (more: seq<Step>)
    requires Inv(s) && IsClaim(s, f, x) && IsClaim(s, f, y) && x != y
    ensures AllInserts(more) && TwoLive(Steps(s, more).db, f)
    decreases (if x.Call? then 1 else 0) + (if y.Call? then 1 else 0)
  {
    if x.Token? && y.Token? {
      more := [];
      assert IsLive(s.db, x.hash, f) && IsLive(s.db, y.hash, f);
    } else {
      var c, other := if x.Call? then x.id else y.id, if x.Call? then y else x;
      var s' := Do(s, CreateToken(c));
      ClaimComesTrue(s, f, c, other);
      var rest := TwoComeTrue(s', f, Token(Sha256(s.db.nextToken)), other);
      more := [CreateToken(c)] + rest;
      StepsAppend(s, [CreateToken(c)], rest);
      assert [CreateToken(c)][..0] == [];
    }
  }

  lemma {:induction false} StepsAppend(s: Sys, xs: seq<Step>, ys: seq<Step>)
    ensures Steps(s, xs + ys) == Steps(Steps(s, xs), ys)
  {
    if ys == [] {
      assert xs + ys == xs;
    } else {
      assert (xs + ys)[..|xs + ys| - 1] == xs + ys[..|ys| - 1];
      StepsAppend(s, xs, ys[..|ys| - 1]);
    }
  }

  lemma OrderLostBreaks(now: int, lifetime: nat, steps: seq<Step>) returns (k: nat, more: seq<Step>, f: nat)
    requires !(OneClaim(now, lifetime, steps) && StaysUnclaimed(now, lifetime, steps)
               && RevocationLasts(now, lifetime, steps))
    ensures Breaks(now, lifetime, steps, k, more, f)
  {
    if i, g: nat :| 0 <= i <= |steps| && !AtMostOne(After(now, lifetime, steps[..i]), g) {
      var s := After(now, lifetime, steps[..i]);
      var x, y :| IsClaim(s, g, x) && IsClaim(s, g, y) && x != y;
      RunKeepsInv(now, lifetime, steps[..i]);
      k, f := i, g;
      more := TwoComeTrue(s, g, x, y);
    } else if i, j, g: nat :| 0 <= i <= j <= |steps| && g < After(now, lifetime, steps[..i]).db.nextFamily
                              && Unclaimed(After(now, lifetime, steps[..i]), g)
                              && !Unclaimed(After(now, lifetime, steps[..j]), g)
    {
      k, f := j, g;
      more := GivenUpBreaks(now, lifetime, steps, i, j, g);
    } else {
      var i, j, g: nat :| 0 <= i < j <= |steps| && Revokes(After(now, lifetime, steps[..i]), steps[i], g)
                          && !Unclaimed(After(now, lifetime, steps[..j]), g);
      k, f := j, g;
      more := GivenUpBreaks(now, lifetime, steps, i, j, g);
    }
  }

  lemma GivenUpBreaks(now: int, lifetime: nat, steps: seq<Step>, i: nat, j: nat, f: nat) returns (more: seq<Step>)
    requires i <= j <= |steps| && GivenUpAt(now, lifetime, steps, j, i, f)
    requires !Unclaimed(After(now, lifetime, steps[..j]), f)
    ensures Breaks(now, lifetime, steps, j, more, f)
  {
    var s := After(now, lifetime, steps[..j]);
    var x :| IsClaim(s, f, x);
    RunKeepsInv(now, lifetime, steps[..j]);
    var h;
    more, h := OneComesTrue(s, f, x);
  }

  /** Inserts are never in the way: a guarded run stays guarded when those under way are let through. */
  lemma InsertsAreGuarded(now: int, lifetime: nat, steps: seq<Step>, k: nat, more: seq<Step>)
    requires Guarded(now, lifetime, steps) && k <= |steps| && AllInserts(more)
    ensures Guarded(now, lifetime, steps[..k] + more)
  {
    var all := steps[..k] + more;
    forall i | 0 <= i < |all|
      ensures GuardedStep(After(now, lifetime, all[..i]), all[i])
    {
      if i < k {
        assert all[..i] == steps[..i] && all[i] == steps[i];
      } else {
        assert all[i] == more[i - k];
      }
    }
  }

  lemma GivenUpInPrefix(now: int, lifetime: nat, steps: seq<Step>, k: nat, more: seq<Step>, f: nat)
    requires k <= |steps| && GivenUp(now, lifetime, steps, k, f)
    ensures GivenUp(now, lifetime, steps[..k] + more, k, f)
  {
    var all := steps[..k] + more;
    var i :| 0 <= i <= k && GivenUpAt(now, lifetime, steps, k, i, f);
    assert all[..i] == steps[..i] && (i < k ==> all[i] == steps[i]);
    assert GivenUpAt(now, lifetime, all, k, i, f);
  }

  lemma GuardedGivesUp(now: int, lifetime: nat, steps: seq<Step>, k: nat, f: nat)
    requires Guarded(now, lifetime, steps) && k <= |steps| && GivenUp(now, lifetime, steps, k, f)
    ensures AllRevoked(After(now, lifetime, steps).db, f)
  {
    var n := |steps|;
    var s := After(now, lifetime, steps);
    assert steps[..n] == steps;
    var i :| 0 <= i <= k && GivenUpAt(now, lifetime, steps, k, i, f);
    if i < k && Revokes(After(now, lifetime, steps[..i]), steps[i], f) {
      GuardedRevocationLasts(now, lifetime, steps, i, n, f);
    } else {
      GuardedStaysUnclaimed(now, lifetime, steps, i, n, f);
    }
    forall h | h in s.db.docs && s.db.docs[h].family == f
      ensures s.db.docs[h].revoked
    {
      assert !IsClaim(s, f, Token(h));
    }
  }

  lemma OneClaimNotTwoLive(s: Sys, f: nat)
    requires AtMostOne(s, f)
    ensures !TwoLive(s.db, f)
  {
    if h1, h2 :| h1 != h2 && IsLive(s.db, h1, f) && IsLive(s.db, h2, f) {
      assert IsClaim(s, f, Token(h1)) && IsClaim(s, f, Token(h2));
    }
  }

  lemma GuardedDoesNotBreak(now: int, lifetime: nat, steps: seq<Step>, k: nat, more: seq<Step>, f: nat)
    requires Guarded(now, lifetime, steps)
    ensures !Breaks(now, lifetime, steps, k, more, f)
  {
    if k <= |steps| && AllInserts(more) {
      var all := steps[..k] + more;
      var n := |all|;
      InsertsAreGuarded(now, lifetime, steps, k, more);
      StepsAppend(Sys(Auth.Init(now, lifetime), map[]), steps[..k], more);
      assert all[..n] == all;
      GuardedHasOneClaim(now, lifetime, all, n, f);
      OneClaimNotTwoLive(After(now, lifetime, all), f);
      if GivenUp(now, lifetime, steps, k, f) {
        GivenUpInPrefix(now, lifetime, steps, k, more, f);
        GuardedGivesUp(now, lifetime, all, k, f);
      }
    }
  }

  /** The same in terms of the stored documents alone: the guard holds throughout exactly when no moment of
      the run, with the inserts then under way let through, shows two unrevoked tokens in one family or an
      unrevoked token in a family that was given up. */
  lemma StoredExactly(now: int, lifetime: nat, steps: seq<Step>)
    ensures Guarded(now, lifetime, steps) <==> forall k, more, f :: !Breaks(now, lifetime, steps, k, more, f)
  {
    if Guarded(now, lifetime, steps) {
      forall k, more, f
        ensures !Breaks(now, lifetime, steps, k, more, f)
      {
        GuardedDoesNotBreak(now, lifetime, steps, k, more, f);
      }
    } else {
      OverlapExactly(now, lifetime, steps);
      var k, more, f := OrderLostBreaks(now, lifetime, steps);
    }
  }

  // ---------------------------------------------------------------- runs that break

  /** A refresh up to its save. */
  function Begun(s: Sys, call: nat, token: nat): Sys
    requires Sha256(token) in s.db.docs
  {
    Go(s, call, Ready(Sha256(token), s.db.docs[Sha256(token)]))
  }

  lemma BeginRuns(s: Sys, steps: seq<Step>, call: nat, token: nat) returns (steps': seq<Step>)
    requires
      var mid := Steps(s, steps);
      call !in mid.calls && Refresh(mid.db, token).1.Ok?
    ensures Steps(s, steps') == Begun(Steps(s, steps), call, token)
  {
    var x1 := Then(s, steps, ReadToken(call, token));
    steps' := Then(s, x1, CheckUser(call));
  }

  /** The writing half of a refresh: its save and its insert. */
  lemma WriteRuns(s: Sys, steps: seq<Step>, call: nat, h: Hash, doc: Doc) returns (steps': seq<Step>)
    requires At(Steps(s, steps), call, Ready(h, doc)) && h in Steps(s, steps).db.docs
    ensures
      var mid, end := Steps(s, steps), Steps(s, steps');
      && end.calls == mid.calls - {call}
      && end.db == Create(mid.db.(docs := mid.db.docs[h := mid.db.docs[h].(revoked := true)]), doc)
  {
    var x1 := Then(s, steps, SaveRevoked(call));
    steps' := Then(s, x1, CreateToken(call));
  }

  /** From any reachable state in which a token is good: two refreshes of it that both read before either writes
      leave its family with two live tokens. */
  lemma OverlapForksFamily(s: Sys, c1: nat, c2: nat, token: nat) returns (steps: seq<Step>)
    requires Inv(s) && c1 != c2 && c1 !in s.calls && c2 !in s.calls && Refresh(s.db, token).1.Ok?
    ensures
      var f, db := s.db.docs[Sha256(token)].family, Steps(s, steps).db;
      IsLive(db, Sha256(s.db.nextToken), f) && IsLive(db, Sha256(s.db.nextToken + 1), f)
  {
    var h := Sha256(token);
    var doc := s.db.docs[h];
    assert Steps(s, []) == s;
    var x1 := BeginRuns(s, [], c1, token);
    var x2 := BeginRuns(s, x1, c2, token);
    var x3 := WriteRuns(s, x2, c1, h, doc);
    steps := WriteRuns(s, x3, c2, h, doc);
  }

  /** And a whole logout that falls between the reading and the writing half of a refresh, or between its
      save and its insert, revokes the family, only for the refresh to open it again. */
  lemma OverlapUndoesLogout(s: Sys, c1: nat, c2: nat, token: nat, afterSave: bool)
    returns (steps: seq<Step>, more: seq<Step>)
    requires c1 != c2 && c1 !in s.calls && c2 !in s.calls && Refresh(s.db, token).1.Ok?
    ensures
      var f := s.db.docs[Sha256(token)].family;
      && AllRevoked(Steps(s, steps).db, f)
      && IsLive(Steps(Steps(s, steps), more).db, Sha256(s.db.nextToken), f)
  {
    var h := Sha256(token);
    var doc := s.db.docs[h];
    assert Steps(s, []) == s;
    var x := BeginRuns(s, [], c1, token);
    if afterSave {
      x := Then(s, x, SaveRevoked(c1));
    }
    var mid := Steps(s, x);
    var logout := WholeLogoutIsARun(mid, c2, token);
    StepsAppend(s, x, logout);
    steps := x + logout;
    var end := Steps(s, steps);
    RevocationIsLocal(mid.db, token);
    assert Steps(end, []) == end;
    if afterSave {
      more := Then(end, [], CreateToken(c1));
    } else {
      more := WriteRuns(end, [], c1, h, doc);
    }
  }

  // ---------------------------------------------------------------- what no overlap can break

  /** A family and a user that some document or some call puts together. */
  ghost predicate Together(s: Sys, f: nat, u: nat) {
    || (exists h :: h in s.db.docs && s.db.docs[h].family == f && s.db.docs[h].user == u)
    || (exists c :: c in s.calls && !s.calls[c].Revoking?
                    && s.calls[c].doc.family == f && s.calls[c].doc.user == u)
  }

  lemma TogetherIsKnown(s: Sys, f: nat, u: nat)
    requires Inv(s) && Together(s, f, u)
    ensures f < s.db.nextFamily
  {
    if c :| c in s.calls && !s.calls[c].Revoking? && s.calls[c].doc.family == f && s.calls[c].doc.user == u {
      assert CallInv(s.db, s.calls[c]);
    }
  }

  lemma BackgroundTogether(s: Sys, e: Event, f: nat, u: nat)
    requires Inv(s) && IsBackground(e) && Together(s.(db := Apply(s.db, e)), f, u)
    ensures Together(s, f, u) || (f == s.db.nextFamily && u == if e.LoggedIn? then e.user else s.db.nextUser)
  {
    var s' := s.(db := Apply(s.db, e));
    if h :| h in s'.db.docs && s'.db.docs[h].family == f && s'.db.docs[h].user == u {
      assert h in s.db.docs || h == Sha256(s.db.nextToken);
    }
  }

  lemma StepTogether(s: Sys, step: Step, f: nat, u: nat)
    requires Inv(s) && !step.Background? && Together(Do(s, step), f, u)
    ensures Together(s, f, u)
  {
    var s' := Do(s, step);
    if h :| h in s'.db.docs && s'.db.docs[h].family == f && s'.db.docs[h].user == u {
      if h in s.db.docs && (!step.CreateToken? || h != Sha256(s.db.nextToken)) {
        assert s.db.docs[h].family == f && s.db.docs[h].user == u;
      } else {
        assert step.call in s.calls && s.calls[step.call].doc.family == f;
      }
    } else {
      var c :| c in s'.calls && !s'.calls[c].Revoking? && s'.calls[c].doc.family == f && s'.calls[c].doc.user == u;
      if c in s.calls {
        assert !s.calls[c].Revoking? && s.calls[c].doc == s'.calls[c].doc;
      }
    }
  }

  /** Whatever overlaps, every family belongs to one user, in its documents and in the calls under way. */
  lemma {:induction false} OneUserPerFamily(now: int, lifetime: nat, steps: seq<Step>, f: nat, u: nat, v: nat)
    requires Together(After(now, lifetime, steps), f, u) && Together(After(now, lifetime, steps), f, v)
    ensures u == v
  {
    if steps != [] {
      var n := |steps| - 1;
      var s, step := After(now, lifetime, steps[..n]), steps[n];
      RunKeepsInv(now, lifetime, steps[..n]);
      if step.Background? && IsBackground(step.e) {
        BackgroundTogether(s, step.e, f, u);
        BackgroundTogether(s, step.e, f, v);
      } else if !step.Background? {
        StepTogether(s, step, f, u);
        StepTogether(s, step, f, v);
      }
      if Together(s, f, u) {
        TogetherIsKnown(s, f, u);
      }
      if Together(s, f, v) {
        TogetherIsKnown(s, f, v);
      }
      if Together(s, f, u) && Together(s, f, v) {
        OneUserPerFamily(now, lifetime, steps[..n], f, u, v);
      }
    }
  }
}
