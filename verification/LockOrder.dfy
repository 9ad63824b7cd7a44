/** Deadlock freedom of the explicit row locks, the races on one ride, and what holds under any
    interleaved traffic. */
module LockOrder {
  import opened Timeline
  import opened Tables
  import opened Services
  import opened Consistency
  import opened History
  import opened Outcomes
  import opened Repeats
  import opened Transactions
  import opened Interleaving
  import opened Completeness

  // ----- no deadlock

  /** `t` cannot go on before `u` lets a lock go. */
  predicate WaitsFor(cfg: Config, sys: System, t: nat, u: nat) {
    && t in sys.txs && u in sys.txs && t != u
    && Next(cfg, sys.txs[t]).Take? && HoldsKey(sys.txs[u], Next(cfg, sys.txs[t]).key)
  }

  /** Users first, then bookings and rides, then scooters; of those who wait for a scooter, the
      sweeper comes last. */
  function Rank(cfg: Config, tx: Tx): nat {
    match Next(cfg, tx)
    case Take(UserKey(_)) => 1
    case Take(BookingKey(_)) => 2
    case Take(RideKey(_)) => 2
    case Take(ScooterKey(_)) => if tx.op.Sweep? then 4 else 3
    case _ => 5
  }

  lemma HoldersRank(cfg: Config, tx: Tx, k: Key)
    requires Shape(cfg, tx) && HoldsKey(tx, k)
    ensures k.UserKey? ==> Rank(cfg, tx) > 1
    ensures k.BookingKey? || k.RideKey? ==> Rank(cfg, tx) > 2
    ensures k.ScooterKey? ==> Rank(cfg, tx) > 3
    ensures k.ScooterKey? && !tx.op.Sweep? ==> Rank(cfg, tx) > 4
  {}

  /** Two sweepers never want one scooter: each holds the active booking the scooter is kept
      for, and a scooter has only one. */
  lemma SweepersDoNotMeet(cfg: Config, sys: System, t: nat, u: nat, quiet: set<nat>)
    requires SystemOk(cfg, sys, quiet) && t in sys.txs && u in sys.txs && t != u
    requires sys.txs[t].op.Sweep? && sys.txs[u].op.Sweep? && Next(cfg, sys.txs[t]).Take?
    ensures !HoldsKey(sys.txs[u], Next(cfg, sys.txs[t]).key)
  {
    var mine, theirs := sys.txs[t], sys.txs[u];
    assert Meets(sys.db, BookingsC);
    assert TxOk(cfg, sys.db, mine, quiet) && TxOk(cfg, sys.db, theirs, quiet);
    NextScooterNeeded(mine, mine.order.value, 0);
    var s := Next(cfg, mine).key.scooter;
    if s in theirs.scooters {
      var b :| b in mine.bookings && mine.bookings[b].scooter == s;
      var c :| c in theirs.bookings && theirs.bookings[c].scooter == s;
      assert ActiveBooking(sys.db, b) && ActiveBooking(sys.db, c);
      assert b == c;
      assert HoldsKey(mine, BookingKey(b)) && HoldsKey(theirs, BookingKey(b));
      assert false;
    }
  }

  lemma WaitingClimbs(cfg: Config, sys: System, t: nat, u: nat, quiet: set<nat>)
    requires SystemOk(cfg, sys, quiet) && WaitsFor(cfg, sys, t, u)
    ensures Rank(cfg, sys.txs[t]) < Rank(cfg, sys.txs[u])
  {
    assert TxOk(cfg, sys.db, sys.txs[u], quiet);
    HoldersRank(cfg, sys.txs[u], Next(cfg, sys.txs[t]).key);
    if sys.txs[t].op.Sweep? && sys.txs[u].op.Sweep? {
      SweepersDoNotMeet(cfg, sys, t, u, quiet);
    } else if sys.txs[t].op.Sweep? {
      assert Next(cfg, sys.txs[t]).key.ScooterKey?;
    }
  }

  ghost predicate WaitingChain(cfg: Config, sys: System, chain: seq<nat>) {
    forall i :: 0 <= i < |chain| - 1 ==> WaitsFor(cfg, sys, chain[i], chain[i + 1])
  }

  lemma {:induction false} ChainClimbs(cfg: Config, sys: System, chain: seq<nat>, i: nat, quiet: set<nat>)
    requires SystemOk(cfg, sys, quiet) && WaitingChain(cfg, sys, chain) && 0 < i < |chain|
    ensures chain[0] in sys.txs && chain[i] in sys.txs
    ensures Rank(cfg, sys.txs[chain[0]]) < Rank(cfg, sys.txs[chain[i]])
  {
    assert WaitsFor(cfg, sys, chain[i - 1], chain[i]);
    WaitingClimbs(cfg, sys, chain[i - 1], chain[i], quiet);
    if i > 1 {
      ChainClimbs(cfg, sys, chain, i - 1, quiet);
    }
  }

  ghost predicate Blocked(cfg: Config, sys: System, t: nat) { exists u :: WaitsFor(cfg, sys, t, u) }

  lemma {:induction false} SomeoneIsFree(cfg: Config, sys: System, t: nat, quiet: set<nat>) returns (u: nat)
    requires SystemOk(cfg, sys, quiet) && t in sys.txs
    ensures u in sys.txs && !Blocked(cfg, sys, u)
    decreases 5 - Rank(cfg, sys.txs[t])
  {
    if Blocked(cfg, sys, t) {
      var v :| WaitsFor(cfg, sys, t, v);
      WaitingClimbs(cfg, sys, t, v, quiet);
      u := SomeoneIsFree(cfg, sys, v, quiet);
    } else {
      u := t;
    }
  }

  /** A step towards its end that the transaction can take now. */
  ghost predicate CanGo(cfg: Config, sys: System, t: nat) {
    || Enabled(cfg, sys, Lock(t)) || Enabled(cfg, sys, Check(t)) || Enabled(cfg, sys, Look(t))
    || Enabled(cfg, sys, Select(t, [])) || Enabled(cfg, sys, Commit(t))
  }

  ghost predicate MovesOn(cfg: Config, sys: System, t: nat) {
    t in sys.txs && !Blocked(cfg, sys, t) && (GivesUp(cfg, sys.db, sys.txs[t]) || CanGo(cfg, sys, t))
  }

  lemma UnblockedGoes(cfg: Config, sys: System, t: nat, quiet: set<nat>)
    requires SystemOk(cfg, sys, quiet) && t in sys.txs && !Blocked(cfg, sys, t)
    ensures MovesOn(cfg, sys, t)
  {
    if !GivesUp(cfg, sys.db, sys.txs[t]) {
      GoesOn(cfg, sys, t, quiet);
      if Next(cfg, sys.txs[t]).Take? {
        FreeWhenUnblocked(cfg, sys, t);
      }
    }
  }

  lemma FreeWhenUnblocked(cfg: Config, sys: System, t: nat)
    requires t in sys.txs && !Blocked(cfg, sys, t) && Next(cfg, sys.txs[t]).Take?
    ensures FreeFor(sys, t, Next(cfg, sys.txs[t]).key)
  {
    forall u | u in sys.txs && u != t ensures !HoldsKey(sys.txs[u], Next(cfg, sys.txs[t]).key) {
      assert !WaitsFor(cfg, sys, t, u);
    }
  }

  /** In every state an execution from idle tables reaches: no ring of transactions waits for one
      another, and while any are under way at least one of them waits for nobody and can take its
      next step, or gives up. */
  lemma NoDeadlock(cfg: Config, db: Db, acts: seq<Action>, sys: System)
    requires Consistent(db) && Executes(cfg, System(db, map[]), acts, sys)
    ensures forall chain :: |chain| >= 2 && WaitingChain(cfg, sys, chain) ==> chain[0] != chain[|chain| - 1]
    ensures sys.txs != map[] ==> exists t :: MovesOn(cfg, sys, t)
  {
    SerializableFromIdle(cfg, db, acts, sys);
    forall chain | |chain| >= 2 && WaitingChain(cfg, sys, chain)
      ensures chain[0] != chain[|chain| - 1]
    {
      ChainClimbs(cfg, sys, chain, |chain| - 1, {});
    }
    if sys.txs != map[] {
      var t :| t in sys.txs;
      var u := SomeoneIsFree(cfg, sys, t, {});
      UnblockedGoes(cfg, sys, u, {});
    }
  }

  // ----- races on one scooter

  /** The calls of an execution that were committed, in that order. */
  ghost function Committed(cfg: Config, sys: System, acts: seq<Action>): seq<Op>
    decreases |acts|
  {
    if acts == [] || !Enabled(cfg, sys, acts[0]) then []
    else
      (if acts[0].Commit? then [sys.txs[acts[0].tx].op] else [])
      + Committed(cfg, Apply(cfg, sys, acts[0]), acts[1..])
  }

  /** Calls on one ride and reports from its scooter. */
  predicate RacingCall(op: Op, r: nat, s: nat) {
    || ((op.Pause? || op.Resume? || op.Finish?) && op.ride == r)
    || (op.Telemetry? && op.scooter == s)
  }

  predicate Races(acts: seq<Action>, r: nat, s: nat) {
    forall i :: 0 <= i < |acts| ==> !acts[i].WarnAll? && (acts[i].Begin? ==> RacingCall(acts[i].op, r, s))
  }

  ghost predicate AllRace(sys: System, r: nat, s: nat) {
    forall t :: t in sys.txs ==> RacingCall(sys.txs[t].op, r, s)
  }

  lemma RaceStep(cfg: Config, sys: System, a: Action, r: nat, s: nat)
    requires AllRace(sys, r, s) && Enabled(cfg, sys, a) && !a.WarnAll? && (a.Begin? ==> RacingCall(a.op, r, s))
    ensures AllRace(Apply(cfg, sys, a), r, s)
    ensures !StartsOnQuiet(cfg, sys, a, {s})
    ensures SerialOps(cfg, sys, a, {s}) == if a.Commit? then [sys.txs[a.tx].op] else []
  {}

  lemma {:induction false} RaceLog(cfg: Config, sys: System, acts: seq<Action>, r: nat, s: nat)
    requires AllRace(sys, r, s) && Races(acts, r, s)
    ensures QuietThroughout(cfg, sys, acts, {s})
    ensures Log(cfg, sys, acts, {s}) == Committed(cfg, sys, acts)
    ensures forall i :: 0 <= i < |Committed(cfg, sys, acts)| ==> RacingCall(Committed(cfg, sys, acts)[i], r, s)
    decreases |acts|
  {
    if acts != [] && Enabled(cfg, sys, acts[0]) {
      RaceStep(cfg, sys, acts[0], r, s);
      RaceLog(cfg, Apply(cfg, sys, acts[0]), acts[1..], r, s);
    }
  }

  /** A ride under way, and any number of calls to pause, resume and finish it and of reports
      from its scooter, each with whatever clock it sampled: however they interleave, the tables
      end as if the committed calls had run whole, one after the other. At most one caller is told
      that it ended the ride, and the finished row is that call's; at most one is handed the
      receipt's id, and a receipt is stored for a finished ride only. */
  lemma RacingCalls(cfg: Config, db: Db, acts: seq<Action>, end: System, r: nat)
    requires Consistent(db) && Unfinished(db, r)
    requires Races(acts, r, db.rides[r].scooter) && Executes(cfg, System(db, map[]), acts, end)
    ensures var calls, told := Committed(cfg, System(db, map[]), acts), Answers(cfg, System(db, map[]), acts);
      && end.db == Run(cfg, db, calls)
      && EndsAmong(told, r) == (if Done(end.db, r) then 1 else 0)
      && MailsAmong(told, r) <= 1
      && (r in end.db.emails ==> Done(end.db, r))
      && (Done(end.db, r) ==> DecidedByOne(cfg, db, calls, told, r, end.db.rides[r]))
  {
    var sys, s := System(db, map[]), db.rides[r].scooter;
    RaceLog(cfg, sys, acts, r, s);
    Serializable(cfg, sys, acts, end, {s});
    EndedOnceMailedOnce(cfg, db, Committed(cfg, sys, acts), r);
    CountsAreReplies(cfg, db, Committed(cfg, sys, acts), r);
    if Done(end.db, r) {
      ToldWhoEnded(cfg, db, Committed(cfg, sys, acts), r);
    }
  }

  /** One of the calls was told that it ended the ride, and the finished row is what that call made
      of the ride as it found it. */
  ghost predicate DecidedByOne(cfg: Config, db: Db, calls: seq<Op>, told: seq<Outcome>, r: nat, row: Ride)
    requires Consistent(db)
  {
    exists i :: 0 <= i < |calls| == |told| && EndsRide(told[i], r)
      && DecidedBy(cfg, Run(cfg, db, calls[..i]), calls[i], r, row)
  }

  ghost predicate DecidedBy(cfg: Config, before: Db, call: Op, r: nat, row: Ride) {
    && (call.Finish? || call.Telemetry?) && Unfinished(before, r) && HasOpenSegment(before.rides[r])
    && row == EndedBy(cfg, before.rides[r], call)
  }

  lemma ToldWhoEnded(cfg: Config, db: Db, calls: seq<Op>, r: nat)
    requires Consistent(db) && !Done(db, r) && Done(Run(cfg, db, calls), r)
    ensures DecidedByOne(cfg, db, calls, Replies(cfg, db, calls), r, Run(cfg, db, calls).rides[r])
  {
    var i, before := SomeCallEnded(cfg, db, calls, r);
    ReplyAt(cfg, db, calls, i);
  }

  // ----- any traffic

  /** The same under any traffic at all: whatever calls interleave, a ride is ended by at most one
      caller and only if it was not ended before, the row is that call's, its receipt is stored at
      most once and as often as a caller is handed its id, and finished rows and messages stand. */
  lemma EndedOnceUnderTraffic(cfg: Config, db: Db, acts: seq<Action>, end: System, r: nat)
    requires Consistent(db) && Executes(cfg, System(db, map[]), acts, end)
    ensures var calls, told := Log(cfg, System(db, map[]), acts, {}), Answers(cfg, System(db, map[]), acts);
      && RidesKept(db, end.db) && MailKept(db, end.db)
      && EndsAmong(told, r) + (if Done(db, r) then 1 else 0) == (if Done(end.db, r) then 1 else 0)
      && MailsAmong(told, r) + (if r in db.emails then 1 else 0) == (if r in end.db.emails then 1 else 0)
      && (r in end.db.emails ==> Done(end.db, r))
      && (Done(end.db, r) && !Done(db, r) ==> DecidedByOne(cfg, db, calls, told, r, end.db.rides[r]))
  {
    var calls := Log(cfg, System(db, map[]), acts, {});
    SerializableFromIdle(cfg, db, acts, end);
    EndedOnceMailedOnce(cfg, db, calls, r);
    CountsAreReplies(cfg, db, calls, r);
    if Done(end.db, r) && !Done(db, r) {
      ToldWhoEnded(cfg, db, calls, r);
    }
  }

  /** And from the seeded fleet the charge of a free scooter and its status agree after every
      interleaving. */
  lemma ChargeAgreesUnderTraffic(cfg: Config, db: Db, acts: seq<Action>, end: System)
    requires cfg.Accepted() && Seeded(cfg, db) && Executes(cfg, System(db, map[]), acts, end)
    ensures forall s :: s in end.db.scooters && Free(end.db.scooters[s].status) ==>
      (end.db.scooters[s].status == Available <==> end.db.scooters[s].battery >= cfg.lowBattery)
  {
    FreshIsConsistent(db);
    SerializableFromIdle(cfg, db, acts, end);
    ChargeAndStatusAgree(cfg, db, Log(cfg, System(db, map[]), acts, {}));
  }
}
