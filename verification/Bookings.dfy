/** Booking and cancelling seats: each a transaction, the cancel with a status check before it opens. */
module Bookings {
  import opened Common
  import opened TrekSeats

  /** `capacity` remembers how many seats the trek was created with; `total` may be edited later. */
  datatype Trek = Trek(seats: Seats, capacity: int)

  datatype BookingStatus = Confirmed | Cancelled

  datatype Booking = Booking(trek: nat, user: nat, status: BookingStatus, code: string, cancelledAt: Option<int>)

  /** A committed cancellation, and whether it hit a booking that was already cancelled. */
  datatype Commit = Commit(trek: nat, repeated: bool)

  /** The collections, the cancels between their check and their transaction, and the commit history. */
  datatype Db = Db(
    treks: map<nat, Trek>,
    bookings: map<nat, Booking>,
    nextTrek: nat,
    nextBooking: nat,
    pending: map<nat, nat>,
    commits: seq<Commit>)

  datatype Error = NoSeatsLeft | CodeTaken | NotFound | NotYours

  predicate CodeUsed(bookings: map<nat, Booking>, code: string) {
    exists b :: b in bookings && bookings[b].code == code
  }

  /** Decrement and insert, all or nothing. */
  function Book(db: Db, user: nat, trek: nat, code: string): (Db, Result<nat, Error>) {
    if trek !in db.treks || Decrement(db.treks[trek].seats).None? then (db, Err(NoSeatsLeft))
    else if CodeUsed(db.bookings, code) then (db, Err(CodeTaken))
    else
      (db.(treks := db.treks[trek := db.treks[trek].(seats := Decrement(db.treks[trek].seats).value)],
           bookings := db.bookings[db.nextBooking := Booking(trek, user, Confirmed, code, None)],
           nextBooking := db.nextBooking + 1),
       Ok(db.nextBooking))
  }

  /** The check before the transaction: true when the cancel goes on to its transaction. */
  function CheckCancel(db: Db, user: nat, booking: nat): Result<bool, Error> {
    if booking !in db.bookings then Err(NotFound)
    else if db.bookings[booking].user != user then Err(NotYours)
    else Ok(db.bookings[booking].status != Cancelled)
  }

  /** The transaction of a cancel that passed its check. It does not look at the status again. */
  function CommitCancel(db: Db, booking: nat, at: int): Db
    requires booking in db.bookings
  {
    var b := db.bookings[booking];
    db.(bookings := db.bookings[booking := b.(status := Cancelled, cancelledAt := Some(at))],
        treks := if b.trek in db.treks
                 then db.treks[b.trek := db.treks[b.trek].(seats := Increment(db.treks[b.trek].seats))]
                 else db.treks,
        commits := db.commits + [Commit(b.trek, b.status == Cancelled)])
  }

  datatype Event =
    | TrekCreated(total: int)
    | TrekUpdated(trek: nat, total: int)
    | TrekRemoved(trek: nat)
    | Booked(user: nat, trek: nat, code: string)
    | CancelChecked(call: nat, user: nat, booking: nat)
    | CancelCommitted(call: nat, at: int)

  function Apply(db: Db, e: Event): Db {
    match e
    case TrekCreated(total) =>
      if total < 1 then db
      else db.(treks := db.treks[db.nextTrek := Trek(Fresh(total), total)], nextTrek := db.nextTrek + 1)
    case TrekUpdated(trek, total) =>
      if trek !in db.treks then db
      else db.(treks := db.treks[trek := db.treks[trek].(seats := db.treks[trek].seats.(total := total))])
    case TrekRemoved(trek) => db.(treks := db.treks - {trek})
    case Booked(user, trek, code) => Book(db, user, trek, code).0
    case CancelChecked(call, user, booking) =>
      if call !in db.pending && CheckCancel(db, user, booking) == Ok(true)
      then db.(pending := db.pending[call := booking])
      else db
    case CancelCommitted(call, at) =>
      if call in db.pending && db.pending[call] in db.bookings
      then CommitCancel(db, db.pending[call], at).(pending := db.pending - {call})
      else db
  }

  const INIT := Db(map[], map[], 0, 0, map[], [])

  function Run(events: seq<Event>): Db {
    if events == [] then INIT
    else Apply(Run(events[..|events| - 1]), events[|events| - 1])
  }

  function BookingsOf(bookings: map<nat, Booking>, trek: nat): set<nat> {
    set b | b in bookings && bookings[b].trek == trek
  }

  function ConfirmedOf(bookings: map<nat, Booking>, trek: nat): set<nat> {
    set b | b in bookings && bookings[b].trek == trek && bookings[b].status == Confirmed
  }

  function CommitsOn(commits: seq<Commit>, trek: nat): nat {
    if commits == [] then 0
    else CommitsOn(commits[..|commits| - 1], trek) + if commits[|commits| - 1].trek == trek then 1 else 0
  }

  /** Cancellations of a trek's bookings that committed on an already cancelled booking. */
  function RepeatsOn(commits: seq<Commit>, trek: nat): nat {
    if commits == [] then 0
    else RepeatsOn(commits[..|commits| - 1], trek)
         + if commits[|commits| - 1] == Commit(trek, true) then 1 else 0
  }

  /** Never below zero; full treks are closed; a closed trek has at most one seat left. */
  predicate SeatsInvariant(s: Seats) {
    s.left >= 0 && (s.left == 0 ==> s.status == Closed) && (s.status == Closed ==> s.left <= 1)
  }

  ghost predicate WellFormed(db: Db) {
    && (forall t :: t in db.treks ==> t < db.nextTrek && SeatsInvariant(db.treks[t].seats))
    && (forall b :: b in db.bookings ==> b < db.nextBooking && db.bookings[b].trek < db.nextTrek)
    && (forall i :: 0 <= i < |db.commits| ==> db.commits[i].trek < db.nextTrek)
    && (forall c :: c in db.pending ==> db.pending[c] in db.bookings)
  }

  /** The seat ledger of one trek, by operations and by bookings. */
  ghost predicate Ledger(db: Db, t: nat) {
    t in db.treks ==>
      && db.treks[t].seats.left == db.treks[t].capacity - |BookingsOf(db.bookings, t)| + CommitsOn(db.commits, t)
      && db.treks[t].seats.left + |ConfirmedOf(db.bookings, t)| == db.treks[t].capacity + RepeatsOn(db.commits, t)
  }

  lemma {:induction false} NothingOnFreshTrek(commits: seq<Commit>, trek: nat)
    requires forall i :: 0 <= i < |commits| ==> commits[i].trek != trek
    ensures CommitsOn(commits, trek) == 0 && RepeatsOn(commits, trek) == 0
  {
    if commits != [] {
      NothingOnFreshTrek(commits[..|commits| - 1], trek);
    }
  }

  lemma InsertCounts(bookings: map<nat, Booking>, b: nat, doc: Booking, t: nat)
    requires b !in bookings && doc.status == Confirmed
    ensures
      var n := if doc.trek == t then 1 else 0;
      && |BookingsOf(bookings[b := doc], t)| == |BookingsOf(bookings, t)| + n
      && |ConfirmedOf(bookings[b := doc], t)| == |ConfirmedOf(bookings, t)| + n
  {
    var after := bookings[b := doc];
    if doc.trek == t {
      assert BookingsOf(after, t) == BookingsOf(bookings, t) + {b};
      assert ConfirmedOf(after, t) == ConfirmedOf(bookings, t) + {b};
    } else {
      assert BookingsOf(after, t) == BookingsOf(bookings, t);
      assert ConfirmedOf(after, t) == ConfirmedOf(bookings, t);
    }
  }

  lemma BookKeepsLedger(db: Db, user: nat, trek: nat, code: string, t: nat)
    requires WellFormed(db) && Ledger(db, t)
    ensures Ledger(Book(db, user, trek, code).0, t)
  {
    var db' := Book(db, user, trek, code).0;
    if db' != db {
      var doc := Booking(trek, user, Confirmed, code, None);
      assert db.nextBooking !in db.bookings;
      InsertCounts(db.bookings, db.nextBooking, doc, t);
      assert db'.bookings == db.bookings[db.nextBooking := doc] && db'.commits == db.commits;
    }
  }

  lemma CommitKeepsLedger(db: Db, booking: nat, at: int, t: nat)
    requires WellFormed(db) && booking in db.bookings && Ledger(db, t)
    ensures Ledger(CommitCancel(db, booking, at), t)
  {
    var db' := CommitCancel(db, booking, at);
    var b := db.bookings[booking];
    assert db'.commits[..|db.commits|] == db.commits;
    assert BookingsOf(db'.bookings, t) == BookingsOf(db.bookings, t);
    assert ConfirmedOf(db'.bookings, t) == ConfirmedOf(db.bookings, t) - {booking};
    assert booking in ConfirmedOf(db.bookings, t) <==> b.trek == t && b.status == Confirmed;
  }

  lemma ApplyKeepsLedger(db: Db, e: Event, t: nat)
    requires WellFormed(db) && Ledger(db, t)
    ensures Ledger(Apply(db, e), t)
  {
    var db' := Apply(db, e);
    match e
    case Booked(user, trek, code) => BookKeepsLedger(db, user, trek, code, t);
    case CancelCommitted(call, at) =>
      if call in db.pending && db.pending[call] in db.bookings {
        var mid := CommitCancel(db, db.pending[call], at);
        CommitKeepsLedger(db, db.pending[call], at, t);
        assert BookingsOf(db'.bookings, t) == BookingsOf(mid.bookings, t);
        assert ConfirmedOf(db'.bookings, t) == ConfirmedOf(mid.bookings, t);
      }
    case _ =>
      assert BookingsOf(db'.bookings, t) == BookingsOf(db.bookings, t);
      assert ConfirmedOf(db'.bookings, t) == ConfirmedOf(db.bookings, t);
      if t == db.nextTrek {
        NothingOnFreshTrek(db.commits, t);
        assert BookingsOf(db.bookings, t) == {} && ConfirmedOf(db.bookings, t) == {};
      }
  }

  lemma ApplyKeepsWellFormed(db: Db, e: Event)
    requires WellFormed(db)
    ensures WellFormed(Apply(db, e))
  {
  }

  /** Seat conservation in every interleaving of bookings and cancels, with edits and removals between
      them: seats are never oversold below zero; the seats left are those opened, less the bookings
      made, plus the cancels committed; and together with the confirmed bookings they exceed the seats
      opened by exactly the number of cancels that committed twice over. */
  lemma {:induction false} SeatConservation(events: seq<Event>, t: nat)
    ensures
      var db := Run(events);
      WellFormed(db) && Ledger(db, t)
  {
    if events != [] {
      SeatConservation(events[..|events| - 1], t);
      ApplyKeepsWellFormed(Run(events[..|events| - 1]), events[|events| - 1]);
      ApplyKeepsLedger(Run(events[..|events| - 1]), events[|events| - 1], t);
    }
  }

  lemma {:induction false} RepeatsCount(commits: seq<Commit>, trek: nat)
    ensures RepeatsOn(commits, trek) == 0 <==> forall i :: 0 <= i < |commits| ==> commits[i] != Commit(trek, true)
  {
    if commits != [] {
      var n := |commits| - 1;
      RepeatsCount(commits[..n], trek);
      assert commits == commits[..n] + [commits[n]];
    }
  }

  /** The seats of a trek balance, in any interleaving, if and only if no cancel of its bookings has
      committed on a booking that was cancelled already: the check that the transaction does not repeat. */
  lemma BalanceExactly(events: seq<Event>, t: nat)
    ensures
      var db := Run(events);
      t in db.treks ==>
        (db.treks[t].seats.left + |ConfirmedOf(db.bookings, t)| == db.treks[t].capacity <==>
           forall i :: 0 <= i < |db.commits| ==> db.commits[i] != Commit(t, true))
  {
    SeatConservation(events, t);
    RepeatsCount(Run(events).commits, t);
  }

  // ---------------------------------------------------------------- cancels that do not overlap

  /** No cancel of a booking passes its check while another cancel of that booking is under way. */
  ghost predicate NoOverlap(events: seq<Event>) {
    forall i :: 0 <= i < |events| && events[i].CancelChecked? ==>
      forall c :: c in Run(events[..i]).pending ==> Run(events[..i]).pending[c] != events[i].booking
  }

  ghost predicate Disjoint(db: Db) {
    && (forall c :: c in db.pending ==>
          db.pending[c] in db.bookings && db.bookings[db.pending[c]].status == Confirmed)
    && (forall c1, c2 :: c1 in db.pending && c2 in db.pending && db.pending[c1] == db.pending[c2] ==> c1 == c2)
    && (forall i :: 0 <= i < |db.commits| ==> !db.commits[i].repeated)
  }

  lemma {:induction false} NoRepeats(commits: seq<Commit>, trek: nat)
    requires forall i :: 0 <= i < |commits| ==> !commits[i].repeated
    ensures RepeatsOn(commits, trek) == 0
  {
    if commits != [] {
      NoRepeats(commits[..|commits| - 1], trek);
    }
  }

  lemma ApplyKeepsDisjoint(db: Db, e: Event)
    requires WellFormed(db) && Disjoint(db)
    requires e.CancelChecked? ==> forall c :: c in db.pending ==> db.pending[c] != e.booking
    ensures Disjoint(Apply(db, e))
  {
  }

  lemma {:induction false} NoOverlapIsDisjoint(events: seq<Event>)
    requires NoOverlap(events)
    ensures Disjoint(Run(events))
  {
    if events != [] {
      var n := |events| - 1;
      assert forall i :: 0 <= i < n ==> events[..n][..i] == events[..i];
      NoOverlapIsDisjoint(events[..n]);
      SeatConservation(events[..n], 0);
      assert events[n].CancelChecked? ==>
          forall c :: c in Run(events[..n]).pending ==> Run(events[..n]).pending[c] != events[n].booking;
      ApplyKeepsDisjoint(Run(events[..n]), events[n]);
    }
  }

  /** When cancels of the same booking do not overlap, seats left and confirmed bookings always add up
      to the seats the trek was opened with, so no seat is ever sold twice. */
  lemma NoOverbooking(events: seq<Event>, t: nat)
    requires NoOverlap(events)
    ensures
      var db := Run(events);
      t in db.treks ==>
        && db.treks[t].seats.left + |ConfirmedOf(db.bookings, t)| == db.treks[t].capacity
        && |ConfirmedOf(db.bookings, t)| <= db.treks[t].capacity
  {
    SeatConservation(events, t);
    NoOverlapIsDisjoint(events);
    NoRepeats(Run(events).commits, t);
  }

  /** Two cancels of one booking that both pass their check before either commits put back two seats. */
  lemma OverlappingCancelsReturnTwoSeats()
    ensures
      var db := Run([TrekCreated(3), Booked(0, 0, "a"), CancelChecked(0, 0, 0), CancelChecked(1, 0, 0),
                     CancelCommitted(0, 0), CancelCommitted(1, 0)]);
      0 in db.treks && db.treks[0].seats.left == 4 && db.treks[0].capacity == 3
  {
    var b := Booking(0, 0, Confirmed, "a", None);
    var e0, e1, e2, e3, e4, e5 := TrekCreated(3), Booked(0, 0, "a"), CancelChecked(0, 0, 0),
                                  CancelChecked(1, 0, 0), CancelCommitted(0, 0), CancelCommitted(1, 0);
    assert [e0, e1, e2, e3, e4, e5][..5] == [e0, e1, e2, e3, e4];
    assert [e0, e1, e2, e3, e4][..4] == [e0, e1, e2, e3];
    assert [e0, e1, e2, e3][..3] == [e0, e1, e2];
    assert [e0, e1, e2][..2] == [e0, e1];
    assert [e0, e1][..1] == [e0];
    var t3, t2 := Trek(Seats(3, 3, Upcoming), 3), Trek(Seats(2, 3, Upcoming), 3);
    assert Run([e0]) == Db(map[0 := t3], map[], 1, 0, map[], []);
    assert Run([e0, e1]) == Db(map[0 := t2], map[0 := b], 1, 1, map[], []);
    assert Run([e0, e1, e2]) == Db(map[0 := t2], map[0 := b], 1, 1, map[0 := 0], []);
    assert Run([e0, e1, e2, e3]) == Db(map[0 := t2], map[0 := b], 1, 1, map[0 := 0, 1 := 0], []);
    assert Run([e0, e1, e2, e3, e4]).treks == map[0 := t3];
  }

  // ---------------------------------------------------------------- whose bookings they are

  /** Some event made the booking, for its user, on its trek and under its code. */
  ghost predicate Asked(events: seq<Event>, b: Booking) {
    exists i :: 0 <= i < |events| && events[i] == Booked(b.user, b.trek, b.code)
  }

  /** Its own user asked for the booking to be cancelled. */
  ghost predicate CancelAsked(events: seq<Event>, booking: nat, user: nat) {
    exists i :: 0 <= i < |events| && events[i].CancelChecked? && events[i].booking == booking && events[i].user == user
  }

  ghost predicate BookingAccounted(events: seq<Event>, id: nat, b: Booking) {
    && Asked(events, b)
    && (b.status == Cancelled <==> b.cancelledAt.Some?)
    && (b.status == Cancelled ==> CancelAsked(events, id, b.user))
  }

  ghost predicate CodesDiffer(bookings: map<nat, Booking>) {
    forall b, c :: b in bookings && c in bookings && bookings[b].code == bookings[c].code ==> b == c
  }

  ghost predicate PendingAccounted(events: seq<Event>, bookings: map<nat, Booking>, pending: map<nat, nat>) {
    forall k :: k in pending ==> pending[k] in bookings && CancelAsked(events, pending[k], bookings[pending[k]].user)
  }

  ghost predicate Accounted(db: Db, events: seq<Event>) {
    && (forall b :: b in db.bookings ==> BookingAccounted(events, b, db.bookings[b]))
    && CodesDiffer(db.bookings)
    && PendingAccounted(events, db.bookings, db.pending)
  }

  lemma MoreEvents(events: seq<Event>, e: Event)
    ensures forall b :: Asked(events, b) ==> Asked(events + [e], b)
    ensures forall b, u :: CancelAsked(events, b, u) ==> CancelAsked(events + [e], b, u)
  {
    forall b | Asked(events, b)
      ensures Asked(events + [e], b)
    {
      var i :| 0 <= i < |events| && events[i] == Booked(b.user, b.trek, b.code);
      assert (events + [e])[i] == events[i];
    }
    forall b, u | CancelAsked(events, b, u)
      ensures CancelAsked(events + [e], b, u)
    {
      var i :| 0 <= i < |events| && events[i].CancelChecked? && events[i].booking == b && events[i].user == u;
      assert (events + [e])[i] == events[i];
    }
  }

  lemma MoreEventsKeepAccounted(db: Db, events: seq<Event>, e: Event)
    requires Accounted(db, events)
    ensures Accounted(db, events + [e])
  {
    MoreEvents(events, e);
    forall b | b in db.bookings
      ensures BookingAccounted(events + [e], b, db.bookings[b])
    {
      assert BookingAccounted(events, b, db.bookings[b]);
    }
  }

  lemma BookKeepsAccounted(db: Db, all: seq<Event>, user: nat, trek: nat, code: string)
    requires WellFormed(db) && Accounted(db, all)
    requires Booked(user, trek, code) in all
    ensures Accounted(Book(db, user, trek, code).0, all)
  {
    var db' := Book(db, user, trek, code).0;
    if db' != db {
      var doc := Booking(trek, user, Confirmed, code, None);
      assert Asked(all, doc);
      assert db'.bookings == db.bookings[db.nextBooking := doc] && db.nextBooking !in db.bookings;
    }
  }

  lemma CheckKeepsAccounted(db: Db, all: seq<Event>, call: nat, user: nat, booking: nat)
    requires Accounted(db, all) && CancelChecked(call, user, booking) in all
    ensures Accounted(Apply(db, CancelChecked(call, user, booking)), all)
  {
    assert CancelAsked(all, booking, user);
  }

  lemma CommitKeepsAccounted(db: Db, all: seq<Event>, call: nat, at: int)
    requires Accounted(db, all)
    ensures Accounted(Apply(db, CancelCommitted(call, at)), all)
  {
    var db' := Apply(db, CancelCommitted(call, at));
    if call in db.pending && db.pending[call] in db.bookings {
      var id := db.pending[call];
      var b := db.bookings[id];
      assert db'.bookings == db.bookings[id := b.(status := Cancelled, cancelledAt := Some(at))];
      assert BookingAccounted(all, id, b);
    }
  }

  lemma ApplyKeepsAccounted(db: Db, events: seq<Event>, e: Event)
    requires WellFormed(db) && Accounted(db, events)
    ensures Accounted(Apply(db, e), events + [e])
  {
    var all := events + [e];
    MoreEventsKeepAccounted(db, events, e);
    assert all[|events|] == e && e in all;
    match e
    case Booked(user, trek, code) => BookKeepsAccounted(db, all, user, trek, code);
    case CancelChecked(call, user, booking) => CheckKeepsAccounted(db, all, call, user, booking);
    case CancelCommitted(call, at) => CommitKeepsAccounted(db, all, call, at);
    case _ => assert Apply(db, e).bookings == db.bookings && Apply(db, e).pending == db.pending;
  }

  /** Every booking is some user's who asked for it, on the trek and under the code asked for; no two share
      a code; and one that is cancelled was asked to be by its own user. */
  lemma BookingsAreAccountedFor(events: seq<Event>)
    ensures
      var bookings := Run(events).bookings;
      && (forall b :: b in bookings ==> Asked(events, bookings[b]))
      && (forall b, c :: b in bookings && c in bookings && bookings[b].code == bookings[c].code ==> b == c)
      && (forall b :: b in bookings && bookings[b].status == Cancelled ==> CancelAsked(events, b, bookings[b].user))
      && (forall b :: b in bookings ==> (bookings[b].status == Cancelled <==> bookings[b].cancelledAt.Some?))
  {
    RunIsAccounted(events);
    forall b | b in Run(events).bookings
      ensures BookingAccounted(events, b, Run(events).bookings[b])
    {
    }
  }

  lemma {:induction false} RunIsAccounted(events: seq<Event>)
    ensures Accounted(Run(events), events)
  {
    if events != [] {
      var n := |events| - 1;
      RunIsAccounted(events[..n]);
      SeatConservation(events[..n], 0);
      ApplyKeepsAccounted(Run(events[..n]), events[..n], events[n]);
      assert events[..n] + [events[n]] == events;
    }
  }

  // ---------------------------------------------------------------- the service

  class BookingsService {
    var treks: map<nat, Trek>
    var bookings: map<nat, Booking>
    var nextTrek: nat
    var nextBooking: nat
    ghost var commits: seq<Commit>

    constructor ()
      ensures View() == INIT
    {
      treks, bookings, nextTrek, nextBooking, commits := map[], map[], 0, 0, [];
    }

    /** Between whole calls no cancel is under way. */
    ghost function View(): Db
      reads this
    {
      Db(treks, bookings, nextTrek, nextBooking, map[], commits)
    }

    /** Fails and leaves the seats alone when the filter matches no trek. */
    method DecrementSeats(trek: nat) returns (r: Result<Seats, Error>)
      modifies `treks
      ensures trek in old(treks) && old(treks)[trek].seats.left > 0 ==>
                var before := old(treks)[trek].seats;
                && r == Ok(Seats(before.left - 1, before.total, if before.left <= 2 then Closed else before.status))
                && r == Ok(Decrement(before).value)
                && treks == old(treks)[trek := old(treks)[trek].(seats := r.value)]
      ensures !(trek in old(treks) && old(treks)[trek].seats.left > 0) ==>
                r == Err(NoSeatsLeft) && treks == old(treks)
    {
      if trek !in treks {
        return Err(NoSeatsLeft);
      }
      match Decrement(treks[trek].seats)
      case None => r := Err(NoSeatsLeft);
      case Some(seats) =>
        treks := treks[trek := treks[trek].(seats := seats)];
        r := Ok(seats);
    }

    method IncrementSeats(trek: nat)
      modifies `treks
      ensures trek !in old(treks) ==> treks == old(treks)
      ensures trek in old(treks) ==>
                var before := old(treks)[trek].seats;
                var status := if before.left + 2 > 0 then Upcoming else before.status;
                treks == old(treks)[trek := old(treks)[trek].(seats := Seats(before.left + 1, before.total, status))]
    {
      if trek in treks {
        treks := treks[trek := treks[trek].(seats := Increment(treks[trek].seats))];
      }
    }

    /** The insert can fail on the unique confirmation code; the transaction then puts the seat back. */
    method Create(user: nat, trek: nat, code: string) returns (r: Result<nat, Error>)
      modifies this
      ensures r == Err(NoSeatsLeft) <==> !(trek in old(treks) && old(treks)[trek].seats.left > 0)
      ensures r == Err(CodeTaken) <==>
                && trek in old(treks) && old(treks)[trek].seats.left > 0
                && exists b :: b in old(bookings) && old(bookings)[b].code == code
      ensures r.Err? ==> (r.error == NoSeatsLeft || r.error == CodeTaken) && View() == old(View())
      ensures r.Ok? ==>
                var before := old(treks)[trek].seats;
                var status := if before.left <= 2 then Closed else before.status;
                && r.value == old(nextBooking)
                && bookings == old(bookings)[r.value := Booking(trek, user, Confirmed, code, None)]
                && treks == old(treks)[trek := old(treks)[trek].(seats := Seats(before.left - 1, before.total, status))]
      ensures WellFormed(old(View())) && r.Ok? ==> r.value !in old(bookings)
      ensures (View(), r) == Book(old(View()), user, trek, code)
    {
      var snapshot := treks;
      var seats := DecrementSeats(trek);
      if seats.Err? {
        return Err(seats.error);
      }
      if exists b :: b in bookings && bookings[b].code == code {
        treks := snapshot;
        return Err(CodeTaken);
      }
      bookings := bookings[nextBooking := Booking(trek, user, Confirmed, code, None)];
      r := Ok(nextBooking);
      nextBooking := nextBooking + 1;
    }

    method FindById(user: nat, booking: nat) returns (r: Result<Booking, Error>)
      ensures booking !in bookings ==> r == Err(NotFound)
      ensures booking in bookings && bookings[booking].user != user ==> r == Err(NotYours)
      ensures booking in bookings && bookings[booking].user == user ==> r == Ok(bookings[booking])
    {
      if booking !in bookings {
        return Err(NotFound);
      }
      if bookings[booking].user != user {
        return Err(NotYours);
      }
      r := Ok(bookings[booking]);
    }

    /** A whole cancel is its check followed at once by its transaction, so it keeps seats and confirmed
        bookings in balance; cancelling again changes nothing. */
    method Cancel(user: nat, booking: nat, at: int) returns (r: Result<Booking, Error>)
      modifies this
      ensures View() == Apply(Apply(old(View()), CancelChecked(0, user, booking)), CancelCommitted(0, at))
      ensures booking !in old(bookings) ==> r == Err(NotFound) && View() == old(View())
      ensures booking in old(bookings) && old(bookings)[booking].user != user ==>
                r == Err(NotYours) && View() == old(View())
      ensures booking in old(bookings) && old(bookings)[booking].user == user ==>
                var b := old(bookings)[booking];
                if b.status == Cancelled then r == Ok(b) && View() == old(View())
                else
                  && r == Ok(Booking(b.trek, user, Cancelled, b.code, Some(at)))
                  && bookings == old(bookings)[booking := r.value]
                  && treks.Keys == old(treks).Keys
                  && (forall t :: t in treks && t != b.trek ==> treks[t] == old(treks)[t])
                  && (b.trek in treks ==> treks[b.trek].seats.left == old(treks)[b.trek].seats.left + 1
                                          && treks[b.trek].seats.total == old(treks)[b.trek].seats.total)
    {
      var found := FindById(user, booking);
      assert map[0 := booking] - {0} == map[];
      if found.Err? {
        return found;
      }
      var doc := found.value;
      if doc.status == Cancelled {
        return Ok(doc);
      }
      doc := doc.(status := Cancelled, cancelledAt := Some(at));
      bookings := bookings[booking := doc];
      IncrementSeats(doc.trek);
      commits := commits + [Commit(doc.trek, false)];
      r := Ok(doc);
    }
  }
}
