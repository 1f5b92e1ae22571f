/** checkProgress of client.c: a transfer is aborted when it takes too long, whatever the clock does. */
module Watchdog {
  import opened CText

  const MAX_PROGRESS_FIXUPS := 10
  const MAX_PLAUSIBLE_PROGRESS := 30
  const CIMSERVER_TIMEOUT := 600

  /** struct _TimeoutControl */
  datatype Control = Control(start: int, last: int, fixups: int)

  /** A call: what the clock reads, and whether everything has been received. */
  datatype Call = Call(now: int, finished: bool)

  datatype Verdict = GoOn(next: Control) | Abort

  /** The clock cannot be trusted to go on from the last reading. */
  predicate NeedsFixup(c: Control, now: int) {
    c.start == 0 || c.last > now || now - c.last > MAX_PLAUSIBLE_PROGRESS
  }

  function Check(c: Control, call: Call): Verdict {
    if call.finished then GoOn(c)
    else if c.fixups > MAX_PROGRESS_FIXUPS then Abort
    else if NeedsFixup(c, call.now) then GoOn(Control(call.now, call.now, c.fixups + 1))
    else if call.now - c.start < CIMSERVER_TIMEOUT then GoOn(c.(last := call.now))
    else Abort
  }

  class TimeoutControl {
    var mTimestampStart: int
    var mTimestampLast: int
    var mFixups: int

    ghost function Model(): Control
      reads this
    {
      Control(mTimestampStart, mTimestampLast, mFixups)
    }

    constructor ()
      ensures Model() == Control(0, 0, 0)
    {
      mTimestampStart, mTimestampLast, mFixups := 0, 0, 0;
    }

    /** 0 to go on, 1 to abort. */
    method CheckProgress(timestampNow: int, finished: bool) returns (r: int)
      modifies this
      ensures match Check(old(Model()), Call(timestampNow, finished))
              case Abort => r == 1 && Model() == old(Model())
              case GoOn(next) => r == 0 && Model() == next
    {
      if finished { return 0; }
      if mFixups > MAX_PROGRESS_FIXUPS { return 1; }
      if mTimestampStart == 0 || mTimestampLast > timestampNow || timestampNow - mTimestampLast > MAX_PLAUSIBLE_PROGRESS {
        mFixups := mFixups + 1;
        mTimestampStart := timestampNow;
        mTimestampLast := timestampNow;
        return 0;
      }
      if timestampNow - mTimestampStart < CIMSERVER_TIMEOUT {
        mTimestampLast := timestampNow;
        return 0;
      } else {
        return 1;
      }
    }
  }

  // ----- any clock -----

  /** The control after calls that all went on; none if one of them asked for an abort. */
  function After(c: Control, calls: List<Call>): Option<Control>
    decreases calls
  {
    match calls
    case Nil => Some(c)
    case Cons(x, t) =>
      match Check(c, x)
      case Abort => None
      case GoOn(next) => After(next, t)
  }

  /** The seconds of plausible progress a call adds. */
  function Progress(c: Control, x: Call): int {
    if x.finished || NeedsFixup(c, x.now) then 0 else x.now - c.last
  }

  function Accepted(c: Control, calls: List<Call>): int
    decreases calls
  {
    match calls
    case Nil => 0
    case Cons(x, t) =>
      match Check(c, x)
      case Abort => 0
      case GoOn(next) => Progress(c, x) + Accepted(next, t)
  }

  function Fixups(c: Control, calls: List<Call>): nat
    decreases calls
  {
    match calls
    case Nil => 0
    case Cons(x, t) =>
      match Check(c, x)
      case Abort => 0
      case GoOn(next) => (if !x.finished && NeedsFixup(c, x.now) then 1 else 0) + Fixups(next, t)
  }

  /** What holds between the calls. */
  predicate Sound(c: Control) {
    0 <= c.fixups <= MAX_PROGRESS_FIXUPS + 1 && (if c.fixups == 0 then c.start == 0 else 0 <= c.last - c.start < CIMSERVER_TIMEOUT)
  }

  /** What is left to be accepted: the rest of this stretch, and whole stretches for the fix-ups still allowed. */
  function Budget(c: Control): int {
    if c.fixups > MAX_PROGRESS_FIXUPS then 0
    else if c.fixups == 0 then MAX_PROGRESS_FIXUPS * (CIMSERVER_TIMEOUT - 1)
    else (MAX_PROGRESS_FIXUPS - c.fixups) * (CIMSERVER_TIMEOUT - 1) + (CIMSERVER_TIMEOUT - 1 - (c.last - c.start))
  }

  lemma {:induction false} BudgetHolds(c: Control, calls: List<Call>)
    requires Sound(c)
    ensures 0 <= Accepted(c, calls) <= Budget(c) && Fixups(c, calls) <= MAX_PROGRESS_FIXUPS + 1 - c.fixups
    decreases calls
  {
    if calls.Cons? {
      match Check(c, calls.head)
      case Abort =>
      case GoOn(next) => BudgetHolds(next, calls.tail);
    }
  }

  /** Whatever the clock reads, there are at most 11 fix-ups and 10 times 599 seconds of plausible progress before an
      abort is asked for. */
  lemma WatchdogBound(calls: List<Call>)
    ensures Fixups(Control(0, 0, 0), calls) <= 11 && Accepted(Control(0, 0, 0), calls) <= 10 * 599
  {
    BudgetHolds(Control(0, 0, 0), calls);
  }

  // ----- a clock that behaves -----

  /** Unfinished calls at times that go on from `last` in steps of 0 to 30 seconds. */
  predicate Steady(last: int, calls: List<Call>)
    decreases calls
  {
    match calls
    case Nil => true
    case Cons(x, t) => if x.finished then Steady(last, t) else 0 <= x.now - last <= MAX_PLAUSIBLE_PROGRESS && Steady(x.now, t)
  }

  /** No unfinished call comes 600 seconds or more after `first`. */
  predicate InTime(first: int, calls: List<Call>) {
    match calls
    case Nil => true
    case Cons(x, t) => (x.finished || x.now - first < CIMSERVER_TIMEOUT) && InTime(first, t)
  }

  lemma {:induction false} SteadyAborts(c: Control, calls: List<Call>)
    requires 1 <= c.fixups <= MAX_PROGRESS_FIXUPS && c.start != 0 && Steady(c.last, calls)
    ensures After(c, calls).Some? <==> InTime(c.start, calls)
    decreases calls
  {
    if calls.Cons? {
      match Check(c, calls.head)
      case Abort =>
      case GoOn(next) => SteadyAborts(next, calls.tail);
    }
  }

  /** With a positive clock in steps of 0 to 30 seconds, an abort is asked for exactly if an unfinished call comes 600
      seconds or more after the first one. */
  lemma SteadyClock(first: int, calls: List<Call>)
    requires first > 0 && Steady(first, calls)
    ensures After(Control(0, 0, 0), Cons(Call(first, false), calls)).Some? <==> InTime(first, calls)
  {
    SteadyAborts(Control(first, first, 1), calls);
  }

  // ----- exactly when -----

  /** The readings at unfinished calls before `i` at which the clock was taken as it was: the first one, each one behind
      the one before or more than 30 seconds ahead of it, and each one after a stretch that started at 0. */
  predicate Restart(r: seq<int>, i: nat)
    requires i < |r|
    decreases i, 1
  {
    i == 0 || r[i] < r[i - 1] || r[i] - r[i - 1] > 30 || r[Latest(r, i)] == 0
  }

  /** The last of them before `i`. */
  function Latest(r: seq<int>, i: nat): (j: nat)
    requires 0 < i <= |r|
    ensures j < i
    decreases i, 0
  {
    if Restart(r, i - 1) then i - 1 else Latest(r, i - 1)
  }

  function Restarts(r: seq<int>, i: nat): nat
    requires i <= |r|
  {
    if i == 0 then 0 else Restarts(r, i - 1) + if Restart(r, i - 1) then 1 else 0
  }

  /** After the readings `r`, an unfinished call at `now` is refused: there have been 11 restarts, or it is none itself
      and comes 600 seconds or more after the last one. */
  predicate Refused(r: seq<int>, now: int) {
    Restarts(r, |r|) >= 11 || (r != [] && !Restart(r + [now], |r|) && now - r[Latest(r, |r|)] >= 600)
  }

  predicate NoneRefused(r: seq<int>, calls: List<Call>)
    decreases calls
  {
    match calls
    case Nil => true
    case Cons(x, t) => if x.finished then NoneRefused(r, t) else !Refused(r, x.now) && NoneRefused(r + [x.now], t)
  }

  lemma {:induction false} RestartMore(r: seq<int>, now: int, i: nat)
    requires i <= |r|
    ensures i < |r| ==> Restart(r + [now], i) == Restart(r, i)
    ensures i > 0 ==> Latest(r + [now], i) == Latest(r, i)
    ensures Restarts(r + [now], i) == Restarts(r, i)
    decreases i
  {
    if i > 0 { RestartMore(r, now, i - 1); }
  }

  /** The fields after the readings `r`, none of which was refused. */
  predicate Follows(c: Control, r: seq<int>) {
    && c.fixups == Restarts(r, |r|)
    && if r == [] then c.start == 0 else c.start == r[Latest(r, |r|)] && c.last == r[|r| - 1]
  }

  lemma {:induction false} AbortsExactly(c: Control, r: seq<int>, calls: List<Call>)
    requires Follows(c, r)
    ensures After(c, calls).Some? <==> NoneRefused(r, calls)
    decreases calls
  {
    if calls.Cons? {
      var x := calls.head;
      if x.finished {
        AbortsExactly(c, r, calls.tail);
      } else {
        var r' := r + [x.now];
        RestartMore(r, x.now, |r|);
        if !Refused(r, x.now) {
          assert Latest(r', |r'|) == if Restart(r', |r|) then |r| else Latest(r', |r|);
          assert Restarts(r', |r'|) == Restarts(r', |r|) + if Restart(r', |r|) then 1 else 0;
          AbortsExactly(Check(c, x).next, r', calls.tail);
        }
      }
    }
  }

  /** Whatever the clock reads, an abort is asked for exactly at a call that is refused. */
  lemma AnyClock(calls: List<Call>)
    ensures After(Control(0, 0, 0), calls).Some? <==> NoneRefused([], calls)
  {
    AbortsExactly(Control(0, 0, 0), [], calls);
  }

  /** With a clock that never reads 0, the restarts are the first reading and those behind or too far ahead. */
  lemma RestartsOfClock(r: seq<int>, i: nat)
    requires i < |r| && forall j :: 0 <= j < i ==> r[j] != 0
    ensures Restart(r, i) <==> i == 0 || r[i] < r[i - 1] || r[i] - r[i - 1] > 30
  {
  }
}
