/** The seat pipelines of a trek: a conditional decrement, an increment, and the status they derive. */
module TrekSeats {
  import opened Common

  datatype Status = Upcoming | Ongoing | Past | Closed

  datatype Seats = Seats(left: int, total: int, status: Status)

  function Fresh(total: int): Seats {
    Seats(total, total, Upcoming)
  }

  /** Matches only while a seat is left. The second stage of the pipeline sees the `left` that the first
      stage has written, and subtracts once more from it. */
  function Decrement(s: Seats): Option<Seats> {
    if s.left > 0 then
      var s1 := s.(left := s.left - 1);
      Some(s1.(status := if s1.left - 1 <= 0 then Closed else s1.status))
    else None
  }

  function Increment(s: Seats): Seats {
    var s1 := s.(left := s.left + 1);
    s1.(status := if s1.left + 1 > 0 then Upcoming else s1.status)
  }

  datatype Op = Dec | Inc

  /** A refused decrement changes nothing. */
  function ApplyOp(s: Seats, op: Op): Seats {
    match op
    case Dec => (match Decrement(s) case Some(s') => s' case None => s)
    case Inc => Increment(s)
  }

  function RunOps(s: Seats, ops: seq<Op>): Seats {
    if ops == [] then s else ApplyOp(RunOps(s, ops[..|ops| - 1]), ops[|ops| - 1])
  }

  /** Whether the last operation that took effect was a decrement. */
  predicate LastWasDec(s: Seats, ops: seq<Op>) {
    ops != [] &&
    match ops[|ops| - 1]
    case Inc => false
    case Dec => RunOps(s, ops[..|ops| - 1]).left > 0 || LastWasDec(s, ops[..|ops| - 1])
  }

  /** Over every run from a fresh trek: never below zero, full treks are closed, and a trek is closed
      exactly when its last effective operation was a decrement that left at most one seat. */
  lemma {:induction false} StatusDerivation(total: int, ops: seq<Op>)
    requires total >= 1
    ensures
      var s := RunOps(Fresh(total), ops);
      && s.left >= 0
      && (s.left == 0 ==> s.status == Closed && LastWasDec(Fresh(total), ops))
      && (s.status == Closed ==> s.left <= 1)
      && (s.status == Closed <==> LastWasDec(Fresh(total), ops) && s.left <= 1)
  {
    if ops != [] {
      StatusDerivation(total, ops[..|ops| - 1]);
    }
  }

  /** What the schema documents: closed when the last seat goes, and only then. */
  predicate AsDocumented(s: Seats) {
    s.status == Closed <==> s.left == 0
  }

  /** The documented status holds after a run exactly when the run did not end in a decrement that left
      one seat. */
  lemma DocumentedExactly(total: int, ops: seq<Op>)
    requires total >= 1
    ensures
      var s := RunOps(Fresh(total), ops);
      AsDocumented(s) <==> !(LastWasDec(Fresh(total), ops) && s.left == 1)
  {
    StatusDerivation(total, ops);
  }

  /** Seen from one booking: the documented status survives it exactly when there were not two seats. */
  lemma DocumentedAfterDecrement(s: Seats)
    requires s.left > 0 && AsDocumented(s)
    ensures AsDocumented(Decrement(s).value) <==> s.left != 2
  {
  }

  /** A trek with two seats closes on its first booking, with a seat still to sell. */
  lemma ClosesOneSeatEarly()
    ensures
      var s := RunOps(Fresh(2), [Dec]);
      s.left == 1 && s.status == Closed && !AsDocumented(s)
  {
    assert [Dec][..0] == [];
  }
}
