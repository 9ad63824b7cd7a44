/** The sweeper over a whole run of passes (backend/app/services/booking_sweeper.py). */
module SweepTiming {
  import opened Options
  import opened Timeline
  import opened Tables
  import opened Services
  import opened Consistency
  import opened History
  import Transactions
  import Interleaving

  predicate Warned(db: Db, b: nat) { b in db.bookings && db.bookings[b].warnedAt.Some? }

  predicate Warns(out: Outcome, b: nat) { out.Swept? && b in out.warned }

  predicate Expires(out: Outcome, b: nat) { out.Swept? && b in out.expired }

  /** A booking's terms never change, a warning is never taken back, and an ended booking does
      not change at all. */
  ghost predicate BookingKept(before: Booking, after: Booking) {
    && after.user == before.user && after.scooter == before.scooter
    && after.createdAt == before.createdAt && after.expiresAt == before.expiresAt
    && (before.warnedAt.Some? ==> after.warnedAt == before.warnedAt)
    && (before.status != Holding ==> after == before)
  }

  ghost predicate BookingsKept(db: Db, after: Db) {
    forall b :: b in db.bookings ==> b in after.bookings && BookingKept(db.bookings[b], after.bookings[b])
  }

  /** Whom a call warned or expired, and that it was the time to. */
  ghost predicate SweepTold(cfg: Config, db: Db, op: Op, after: Db, out: Outcome) {
    && BookingsKept(db, after)
    && (forall b :: Warns(out, b) <==> Warned(after, b) && !Warned(db, b))
    && (forall b :: Warns(out, b) ==>
          && (op.Warn? || op.Sweep?) && b in db.bookings
          && WarningDue(db.bookings[b], op.now, cfg.warnBefore)
          && after.bookings[b] == db.bookings[b].(warnedAt := Some(op.now)))
    && (forall b :: Expires(out, b) ==>
          && (op.Expire? || op.Sweep?) && b in db.bookings && Overdue(db.bookings[b], op.now)
          && after.bookings[b] == EndedRow(db.bookings[b], Expired, op.now))
  }

  lemma StepSweepTold(cfg: Config, db: Db, op: Op)
    requires Consistent(db)
    ensures ForeignKeys(db) && OpenSegments(db)
    ensures SweepTold(cfg, db, op, Step(cfg, db, op).0, Step(cfg, db, op).1)
  {
    Usable(db);
    assert Meets(db, IdsC);
    if op.Sweep? {
      PassTold(cfg, db, op);
    } else if op.Expire? || op.Warn? {
      HalfPassTold(cfg, db, op);
    } else {
      OtherSweepTold(cfg, db, op);
    }
  }

  lemma PassTold(cfg: Config, db: Db, op: Op)
    requires ForeignKeys(db) && OpenSegments(db) && op.Sweep?
    ensures SweepTold(cfg, db, op, Step(cfg, db, op).0, Step(cfg, db, op).1)
  {}

  lemma HalfPassTold(cfg: Config, db: Db, op: Op)
    requires ForeignKeys(db) && OpenSegments(db) && (op.Expire? || op.Warn?)
    ensures SweepTold(cfg, db, op, Step(cfg, db, op).0, Step(cfg, db, op).1)
  {}

  lemma QuietSweep(cfg: Config, db: Db, op: Op, after: Db, out: Outcome)
    requires after.bookings == db.bookings && !out.Swept?
    ensures SweepTold(cfg, db, op, after, out)
  {}

  lemma SameBookings(cfg: Config, db: Db, op: Op)
    requires ForeignKeys(db) && OpenSegments(db)
    requires op.Pause? || op.Resume? || op.Finish? || op.Telemetry? || op.Report?
    ensures Step(cfg, db, op).0.bookings == db.bookings && !Step(cfg, db, op).1.Swept?
  {
    match op
    case Pause(user, r, now) => SwitchSameBookings(db, user, r, Paused, now);
    case Resume(user, r, now) => SwitchSameBookings(db, user, r, Active, now);
    case Finish(user, r, now, mailOk) => FinishSameBookings(cfg, db, user, r, now, mailOk);
    case _ =>
  }

  lemma SwitchSameBookings(db: Db, user: nat, r: nat, status: RideStatus, now: int)
    requires ForeignKeys(db) && OpenSegments(db)
    ensures var (after, out) := SwitchRide(db, user, r, status, now);
      after.bookings == db.bookings && !out.Swept?
  {}

  lemma FinishSameBookings(cfg: Config, db: Db, user: nat, r: nat, now: int, mailOk: bool)
    requires ForeignKeys(db) && OpenSegments(db)
    ensures var (after, out) := FinishRide(db, user, r, cfg.zones, cfg.lowBattery, now, mailOk);
      after.bookings == db.bookings && !out.Swept?
  {}

  lemma CreateTold(cfg: Config, db: Db, op: Op)
    requires ForeignKeys(db) && OpenSegments(db) && IdsOk(db) && op.Create?
    ensures SweepTold(cfg, db, op, Step(cfg, db, op).0, Step(cfg, db, op).1)
  {}

  lemma CancelTold(cfg: Config, db: Db, op: Op)
    requires ForeignKeys(db) && OpenSegments(db) && op.Cancel?
    ensures SweepTold(cfg, db, op, Step(cfg, db, op).0, Step(cfg, db, op).1)
  {}

  lemma StartSweepTold(cfg: Config, db: Db, op: Op)
    requires ForeignKeys(db) && OpenSegments(db) && op.Start?
    ensures SweepTold(cfg, db, op, Step(cfg, db, op).0, Step(cfg, db, op).1)
  {}

  lemma OtherSweepTold(cfg: Config, db: Db, op: Op)
    requires ForeignKeys(db) && OpenSegments(db) && IdsOk(db)
    requires !op.Sweep? && !op.Expire? && !op.Warn?
    ensures SweepTold(cfg, db, op, Step(cfg, db, op).0, Step(cfg, db, op).1)
  {
    if op.Create? {
      CreateTold(cfg, db, op);
    } else if op.Cancel? {
      CancelTold(cfg, db, op);
    } else if op.Start? {
      StartSweepTold(cfg, db, op);
    } else {
      SameBookings(cfg, db, op);
      QuietSweep(cfg, db, op, Step(cfg, db, op).0, Step(cfg, db, op).1);
    }
  }

  // ----- at most one warning

  ghost function CountWarnings(cfg: Config, db: Db, ops: seq<Op>, b: nat): nat
    requires Consistent(db)
    decreases |ops|
  {
    if ops == [] then 0
    else
      StepKeeps(cfg, db, ops[0]);
      var (after, out) := Step(cfg, db, ops[0]);
      (if Warns(out, b) then 1 else 0) + CountWarnings(cfg, after, ops[1..], b)
  }

  lemma BookingsKeptTwice(db: Db, mid: Db, end: Db)
    requires BookingsKept(db, mid) && BookingsKept(mid, end)
    ensures BookingsKept(db, end)
  {
    forall b | b in db.bookings ensures b in end.bookings && BookingKept(db.bookings[b], end.bookings[b]) {
      assert BookingKept(db.bookings[b], mid.bookings[b]);
    }
  }

  /** Over any run of any calls a booking is warned at most once: as often as its `warned_at`
      goes from null to a time, which is while it is active and strictly before it expires. */
  lemma {:induction false} WarnedAtMostOnce(cfg: Config, db: Db, ops: seq<Op>, b: nat)
    requires Consistent(db)
    ensures var end := Run(cfg, db, ops);
      && BookingsKept(db, end)
      && CountWarnings(cfg, db, ops, b) + (if Warned(db, b) then 1 else 0) == (if Warned(end, b) then 1 else 0)
      && (Warned(end, b) && !Warned(db, b) ==>
            var booking := end.bookings[b];
            && booking.warnedAt.value < booking.expiresAt
            && booking.expiresAt - booking.warnedAt.value <= cfg.warnBefore
            && 2 * (booking.expiresAt - booking.warnedAt.value) <= booking.expiresAt - booking.createdAt)
    decreases |ops|
  {
    if ops != [] {
      StepKeeps(cfg, db, ops[0]);
      StepSweepTold(cfg, db, ops[0]);
      var after := Step(cfg, db, ops[0]).0;
      WarnedAtMostOnce(cfg, after, ops[1..], b);
      BookingsKeptTwice(db, after, Run(cfg, after, ops[1..]));
      assert b in after.bookings ==> BookingKept(after.bookings[b], Run(cfg, after, ops[1..]).bookings[b]);
    }
  }

  // ----- a booking left alone

  /** Nobody cancels the booking or starts a ride from it. */
  predicate LeavesAlone(op: Op, b: nat) { !(op.Cancel? && op.booking == b) && !(op.Start? && op.booking == b) }

  /** The passes of a sweeper among any other calls: an expiry that does not skip the booking once
      it is overdue, and later a warning at the same clock, in two transactions as they are
      committed or in one. `open` is the clock of a pass whose warning is still to come. */
  predicate InPasses(ops: seq<Op>, b: nat, expiresAt: int, open: Option<int>)
    decreases |ops|
  {
    ops == [] ||
    match ops[0]
    case Expire(batch, now) =>
      open.None? && (b in batch || now < expiresAt) && InPasses(ops[1..], b, expiresAt, Some(now))
    case Warn(now) => open == Some(now) && InPasses(ops[1..], b, expiresAt, None)
    case Sweep(now) => open.None? && InPasses(ops[1..], b, expiresAt, None)
    case _ => InPasses(ops[1..], b, expiresAt, open)
  }

  predicate StartsPass(op: Op) { op.Sweep? || op.Expire? }

  /** The clocks of the passes, in their order. */
  function SweepTimes(ops: seq<Op>): seq<int> {
    if ops == [] then []
    else (if StartsPass(ops[0]) then [ops[0].now] else []) + SweepTimes(ops[1..])
  }

  lemma NextTime(ops: seq<Op>)
    requires ops != []
    ensures SweepTimes(ops) == if StartsPass(ops[0]) then [ops[0].now] + SweepTimes(ops[1..]) else SweepTimes(ops[1..])
  {}

  /** Clocks that never run backwards and are at most `d` apart. */
  predicate Gaps(times: seq<int>, d: int) {
    |times| < 2 || (times[0] <= times[1] <= times[0] + d && Gaps(times[1..], d))
  }

  predicate InWindow(booking: Booking, t: int, warnBefore: int) {
    && booking.expiresAt - t <= warnBefore && 2 * (booking.expiresAt - t) <= booking.expiresAt - booking.createdAt
  }

  /** What a warning at `t` makes of an active booking not yet expired. */
  function AfterWarning(cfg: Config, booking: Booking, t: int): Booking {
    if booking.warnedAt.None? && InWindow(booking, t, cfg.warnBefore) then booking.(warnedAt := Some(t)) else booking
  }

  /** Expired within the gap, and warned on the way. */
  ghost predicate EndedInTime(booking: Booking, d: int) {
    && booking.status == Expired && booking.endedAt.Some?
    && booking.expiresAt <= booking.endedAt.value < booking.expiresAt + d
    && booking.warnedAt.Some?
  }

  lemma OtherCallsLeaveIt(cfg: Config, db: Db, op: Op, b: nat)
    requires ForeignKeys(db) && OpenSegments(db) && IdsOk(db)
    requires b in db.bookings && LeavesAlone(op, b) && !StartsPass(op) && !op.Warn?
    ensures b in Step(cfg, db, op).0.bookings && Step(cfg, db, op).0.bookings[b] == db.bookings[b]
  {
    if !op.Create? && !op.Cancel? && !op.Start? {
      SameBookings(cfg, db, op);
    }
  }

  lemma PassOnBooking(cfg: Config, db: Db, t: int, b: nat)
    requires ForeignKeys(db) && OpenSegments(db) && ActiveBooking(db, b)
    ensures var after, before := Step(cfg, db, Sweep(t)).0, db.bookings[b];
      b in after.bookings && after.bookings[b]
        == if before.expiresAt <= t then EndedRow(before, Expired, t) else AfterWarning(cfg, before, t)
  {}

  lemma ExpiryOnBooking(cfg: Config, db: Db, batch: set<nat>, t: int, b: nat)
    requires ForeignKeys(db) && OpenSegments(db) && ActiveBooking(db, b)
    requires b in batch || t < db.bookings[b].expiresAt
    ensures var after, before := Step(cfg, db, Expire(batch, t)).0, db.bookings[b];
      b in after.bookings
      && after.bookings[b] == if before.expiresAt <= t then EndedRow(before, Expired, t) else before
  {}

  lemma WarningOnBooking(cfg: Config, db: Db, t: int, b: nat)
    requires ForeignKeys(db) && OpenSegments(db) && ActiveBooking(db, b) && t < db.bookings[b].expiresAt
    ensures var after, before := Step(cfg, db, Warn(t)).0, db.bookings[b];
      b in after.bookings && after.bookings[b] == AfterWarning(cfg, before, t)
  {}

  lemma NextGap(last: int, t: int, times: seq<int>, d: int)
    requires Gaps([last] + ([t] + times), d)
    ensures last <= t <= last + d && Gaps([t] + times, d)
  {
    assert ([last] + ([t] + times))[1..] == [t] + times;
  }

  /** What is left to come: passes at most `d` apart, from `last` on if there was one, reaching
      beyond the expiry; no pass so far has missed it. */
  ghost predicate Expected(cfg: Config, booking: Booking, times: seq<int>, d: int, last: Option<int>) {
    && d <= cfg.warnBefore && 2 * d <= booking.expiresAt - booking.createdAt
    && times != [] && booking.expiresAt <= times[|times| - 1]
    && match last
       case None => Gaps(times, d) && times[0] < booking.expiresAt
       case Some(t) =>
         && Gaps([t] + times, d) && t < booking.expiresAt
         && (booking.warnedAt.Some? || !InWindow(booking, t, cfg.warnBefore))
  }

  /** A pass before the expiry leaves the rest as expected; the first one after it finds the
      booking warned and is less than `d` late. */
  lemma AfterPass(cfg: Config, booking: Booking, t: int, times: seq<int>, d: int, last: Option<int>)
    requires Expected(cfg, booking, [t] + times, d, last)
    ensures booking.expiresAt <= t ==> booking.warnedAt.Some? && t < booking.expiresAt + d
    ensures t < booking.expiresAt ==> Expected(cfg, AfterWarning(cfg, booking, t), times, d, Some(t))
  {
    if last.Some? {
      NextGap(last.value, t, times, d);
    }
    if t < booking.expiresAt {
      assert times != [] && ([t] + times)[|times|] == times[|times| - 1];
    }
  }

  /** The passes still to come, with the one that is under way. */
  function Coming(open: Option<int>, ops: seq<Op>): seq<int> {
    (if open.Some? then [open.value] else []) + SweepTimes(ops)
  }

  /** How a call moves the passes on. */
  function Opened(op: Op, open: Option<int>): Option<int> {
    if op.Expire? then Some(op.now) else if op.Sweep? || op.Warn? then None else open
  }

  lemma NextComing(ops: seq<Op>, b: nat, expiresAt: int, open: Option<int>)
    requires ops != [] && InPasses(ops, b, expiresAt, open)
    ensures InPasses(ops[1..], b, expiresAt, Opened(ops[0], open))
    ensures ops[0].Expire? ==> b in ops[0].batch || ops[0].now < expiresAt
    ensures ops[0].Warn? ==> open == Some(ops[0].now)
    ensures StartsPass(ops[0]) || ops[0].Warn? ==> Coming(open, ops) == [ops[0].now] + SweepTimes(ops[1..])
    ensures !ops[0].Sweep? && !ops[0].Warn? ==> Coming(Opened(ops[0], open), ops[1..]) == Coming(open, ops)
    ensures Coming(None, ops[1..]) == SweepTimes(ops[1..])
  {
    NextTime(ops);
  }

  /** A booking left alone, with what is still to come. */
  ghost predicate OnCourse(cfg: Config, booking: Booking, ops: seq<Op>, b: nat, d: int, last: Option<int>,
                           open: Option<int>)
  {
    && InPasses(ops, b, booking.expiresAt, open)
    && (open.Some? ==> open.value < booking.expiresAt)
    && Expected(cfg, booking, Coming(open, ops), d, last)
  }

  /** What a pass, or one half of it, makes of an active booking. */
  function AfterHalf(cfg: Config, booking: Booking, op: Op): Booking
    requires StartsPass(op) || op.Warn?
  {
    if booking.expiresAt <= op.now then EndedRow(booking, Expired, op.now)
    else if op.Expire? then booking
    else AfterWarning(cfg, booking, op.now)
  }

  lemma HalfOnBooking(cfg: Config, db: Db, op: Op, b: nat)
    requires ForeignKeys(db) && OpenSegments(db) && ActiveBooking(db, b) && (StartsPass(op) || op.Warn?)
    requires op.Expire? ==> b in op.batch || op.now < db.bookings[b].expiresAt
    requires op.Warn? ==> op.now < db.bookings[b].expiresAt
    ensures var after := Step(cfg, db, op).0;
      b in after.bookings && after.bookings[b] == AfterHalf(cfg, db.bookings[b], op)
  {
    match op
    case Sweep(now) => PassOnBooking(cfg, db, now, b);
    case Expire(batch, now) => ExpiryOnBooking(cfg, db, batch, now, b);
    case Warn(now) => WarningOnBooking(cfg, db, now, b);
  }

  /** The booking stays on course until the first pass after its expiry, which comes in time. */
  lemma ExpiryKeepsCourse(cfg: Config, booking: Booking, ops: seq<Op>, b: nat, d: int, last: Option<int>,
                          open: Option<int>)
    requires OnCourse(cfg, booking, ops, b, d, last, open) && ops != [] && ops[0].Expire?
    ensures b in ops[0].batch || ops[0].now < booking.expiresAt
    ensures if booking.expiresAt <= ops[0].now then EndedInTime(AfterHalf(cfg, booking, ops[0]), d)
      else OnCourse(cfg, booking, ops[1..], b, d, last, Some(ops[0].now))
  {
    NextComing(ops, b, booking.expiresAt, open);
    if booking.expiresAt <= ops[0].now {
      EndsHere(cfg, booking, ops[0].now, SweepTimes(ops[1..]), d, last);
    }
  }

  lemma EndsHere(cfg: Config, booking: Booking, t: int, times: seq<int>, d: int, last: Option<int>)
    requires Expected(cfg, booking, [t] + times, d, last) && booking.expiresAt <= t
    ensures EndedInTime(EndedRow(booking, Expired, t), d)
  {
    AfterPass(cfg, booking, t, times, d, last);
  }

  lemma WarningKeepsCourse(cfg: Config, booking: Booking, ops: seq<Op>, b: nat, d: int, last: Option<int>,
                           open: Option<int>)
    requires OnCourse(cfg, booking, ops, b, d, last, open) && ops != [] && (ops[0].Sweep? || ops[0].Warn?)
    ensures ops[0].Warn? ==> ops[0].now < booking.expiresAt
    ensures if booking.expiresAt <= ops[0].now then EndedInTime(AfterHalf(cfg, booking, ops[0]), d)
      else OnCourse(cfg, AfterHalf(cfg, booking, ops[0]), ops[1..], b, d, Some(ops[0].now), None)
  {
    NextComing(ops, b, booking.expiresAt, open);
    if booking.expiresAt <= ops[0].now {
      EndsHere(cfg, booking, ops[0].now, SweepTimes(ops[1..]), d, last);
    } else {
      WarningGoesOn(cfg, booking, ops[0].now, ops[1..], b, d, last);
    }
  }

  lemma WarningGoesOn(cfg: Config, booking: Booking, t: int, rest: seq<Op>, b: nat, d: int, last: Option<int>)
    requires InPasses(rest, b, booking.expiresAt, None) && t < booking.expiresAt
    requires Expected(cfg, booking, [t] + SweepTimes(rest), d, last)
    ensures OnCourse(cfg, AfterWarning(cfg, booking, t), rest, b, d, Some(t), None)
  {
    AfterPass(cfg, booking, t, SweepTimes(rest), d, last);
    CourseFrom(cfg, AfterWarning(cfg, booking, t), rest, b, d, Some(t));
  }

  lemma CourseFrom(cfg: Config, booking: Booking, ops: seq<Op>, b: nat, d: int, last: Option<int>)
    requires InPasses(ops, b, booking.expiresAt, None) && Expected(cfg, booking, SweepTimes(ops), d, last)
    ensures OnCourse(cfg, booking, ops, b, d, last, None)
  {
    assert Coming(None, ops) == SweepTimes(ops);
  }

  lemma OtherKeepsCourse(cfg: Config, booking: Booking, ops: seq<Op>, b: nat, d: int, last: Option<int>,
                         open: Option<int>)
    requires OnCourse(cfg, booking, ops, b, d, last, open) && ops != [] && !StartsPass(ops[0]) && !ops[0].Warn?
    ensures OnCourse(cfg, booking, ops[1..], b, d, last, open)
  {
    NextComing(ops, b, booking.expiresAt, open);
  }

  lemma {:induction false} EndsInTime(cfg: Config, db: Db, ops: seq<Op>, b: nat, d: int, last: Option<int>,
                                      open: Option<int>)
    requires Consistent(db) && ActiveBooking(db, b)
    requires forall i :: 0 <= i < |ops| ==> LeavesAlone(ops[i], b)
    requires OnCourse(cfg, db.bookings[b], ops, b, d, last, open)
    ensures b in Run(cfg, db, ops).bookings && EndedInTime(Run(cfg, db, ops).bookings[b], d)
    decreases |ops|
  {
    assert ops != [];
    var op, rest := ops[0], ops[1..];
    StepKeeps(cfg, db, op);
    var after := Step(cfg, db, op).0;
    if op.Expire? {
      ExpiryKeepsCourse(cfg, db.bookings[b], ops, b, d, last, open);
      HalfOnBooking(cfg, db, op, b);
      if op.now >= db.bookings[b].expiresAt {
        StaysEnded(cfg, after, rest, b);
      } else {
        EndsInTime(cfg, after, rest, b, d, last, Some(op.now));
      }
    } else if op.Sweep? || op.Warn? {
      WarningKeepsCourse(cfg, db.bookings[b], ops, b, d, last, open);
      HalfOnBooking(cfg, db, op, b);
      if op.now >= db.bookings[b].expiresAt {
        StaysEnded(cfg, after, rest, b);
      } else {
        EndsInTime(cfg, after, rest, b, d, Some(op.now), None);
      }
    } else {
      assert Meets(db, IdsC);
      OtherCallsLeaveIt(cfg, db, op, b);
      OtherKeepsCourse(cfg, db.bookings[b], ops, b, d, last, open);
      EndsInTime(cfg, after, rest, b, d, last, open);
    }
  }

  lemma StaysEnded(cfg: Config, db: Db, ops: seq<Op>, b: nat)
    requires Consistent(db) && b in db.bookings && db.bookings[b].status != Holding
    ensures b in Run(cfg, db, ops).bookings && Run(cfg, db, ops).bookings[b] == db.bookings[b]
  {
    WarnedAtMostOnce(cfg, db, ops, b);
  }

  /** A booking left alone while passes come at most `d` apart, with `d` no longer than either
      window of a warning, the first before the booking expires and the last not before. */
  ghost predicate SweptOften(cfg: Config, booking: Booking, ops: seq<Op>, b: nat, d: int) {
    var times := SweepTimes(ops);
    && (forall i :: 0 <= i < |ops| ==> LeavesAlone(ops[i], b))
    && InPasses(ops, b, booking.expiresAt, None)
    && d <= cfg.warnBefore && 2 * d <= booking.expiresAt - booking.createdAt
    && Gaps(times, d) && times != [] && times[0] < booking.expiresAt <= times[|times| - 1]
  }

  lemma SweptOftenIsCourse(cfg: Config, booking: Booking, ops: seq<Op>, b: nat, d: int)
    requires SweptOften(cfg, booking, ops, b, d)
    ensures OnCourse(cfg, booking, ops, b, d, None, None)
  {
    ExpectedAtFirst(cfg, booking, SweepTimes(ops), d);
    CourseFrom(cfg, booking, ops, b, d, None);
  }

  lemma ExpectedAtFirst(cfg: Config, booking: Booking, times: seq<int>, d: int)
    requires d <= cfg.warnBefore && 2 * d <= booking.expiresAt - booking.createdAt
    requires Gaps(times, d) && times != [] && times[0] < booking.expiresAt <= times[|times| - 1]
    ensures Expected(cfg, booking, times, d, None)
  {}

  /** Such a booking is warned exactly once, before it expires, and is ended less than `d` after it. */
  lemma LeftAloneIsWarnedThenExpired(cfg: Config, db: Db, ops: seq<Op>, b: nat, d: int)
    requires Consistent(db) && ActiveBooking(db, b) && !Warned(db, b)
    requires SweptOften(cfg, db.bookings[b], ops, b, d)
    ensures CountWarnings(cfg, db, ops, b) == 1
    ensures var end := Run(cfg, db, ops);
      && b in end.bookings && EndedInTime(end.bookings[b], d)
      && end.bookings[b].warnedAt.value < end.bookings[b].expiresAt == db.bookings[b].expiresAt
  {
    SweptOftenIsCourse(cfg, db.bookings[b], ops, b, d);
    EndsInTime(cfg, db, ops, b, d, None, None);
    WarnedAtMostOnce(cfg, db, ops, b);
    assert BookingKept(db.bookings[b], Run(cfg, db, ops).bookings[b]);
  }

  // ----- among interleaved calls

  function WarningsAmong(outs: seq<Outcome>, b: nat): nat {
    if outs == [] then 0 else (if Warns(outs[0], b) then 1 else 0) + WarningsAmong(outs[1..], b)
  }

  lemma {:induction false} WarningsAreReplies(cfg: Config, db: Db, ops: seq<Op>, b: nat)
    requires Consistent(db)
    ensures WarningsAmong(Replies(cfg, db, ops), b) == CountWarnings(cfg, db, ops, b)
    decreases |ops|
  {
    if ops != [] {
      StepKeeps(cfg, db, ops[0]);
      var (after, out) := Step(cfg, db, ops[0]);
      WarningsAreReplies(cfg, after, ops[1..], b);
      assert Replies(cfg, db, ops) == [out] + Replies(cfg, after, ops[1..]);
      assert Replies(cfg, db, ops)[1..] == Replies(cfg, after, ops[1..]);
    }
  }

  /** The same for any interleaving of calls whose commits sweep that often: exactly one pass is
      told to warn of the booking, and it is ended in time. */
  lemma SweptInTime(cfg: Config, db: Db, acts: seq<Transactions.Action>, end: Transactions.System, b: nat, d: int)
    requires Consistent(db) && ActiveBooking(db, b) && !Warned(db, b)
    requires Interleaving.Executes(cfg, Transactions.System(db, map[]), acts, end)
    requires SweptOften(cfg, db.bookings[b], Interleaving.Log(cfg, Transactions.System(db, map[]), acts, {}), b, d)
    ensures WarningsAmong(Interleaving.Answers(cfg, Transactions.System(db, map[]), acts), b) == 1
    ensures b in end.db.bookings && EndedInTime(end.db.bookings[b], d)
    ensures end.db.bookings[b].warnedAt.value < end.db.bookings[b].expiresAt == db.bookings[b].expiresAt
  {
    var ops := Interleaving.Log(cfg, Transactions.System(db, map[]), acts, {});
    Interleaving.SerializableFromIdle(cfg, db, acts, end);
    LeftAloneIsWarnedThenExpired(cfg, db, ops, b, d);
    WarningsAreReplies(cfg, db, ops, b);
  }
}
