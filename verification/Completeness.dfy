/** Transactions give up only where the whole call would change nothing, and every run of whole
    calls is an execution: the other half of serializability. */
module Completeness {
  import opened Options
  import opened Tables
  import opened Services
  import opened Consistency
  import opened History
  import opened Transactions
  import opened Interleaving

  // ----- giving up

  /** A caller told that nothing changed: an error, or the state asked for found in place. */
  predicate NothingDone(out: Outcome) { out.Refused? || out.RideSwitched? || (out.RideStarted? && !out.created) }

  /** What makes a transaction give up: what it read refuses, its user's other rows do, or the row
      it names does not exist. */
  predicate GivesUp(cfg: Config, db: Db, tx: Tx) {
    match Next(cfg, tx)
    case Refuse => true
    case CheckUser => !CheckPasses(db, tx.op)
    case Take(k) => !RowExists(db, k)
    case _ => false
  }

  lemma CreateGivesUp(cfg: Config, db: Db, tx: Tx)
    requires tx.op.Create? && Current(db, tx) && GivesUp(cfg, db, tx) && ForeignKeys(db) && OpenSegments(db)
    ensures Step(cfg, db, tx.op).0 == db && Step(cfg, db, tx.op).1.Refused?
  {}

  lemma CancelGivesUp(cfg: Config, db: Db, tx: Tx)
    requires tx.op.Cancel? && Current(db, tx) && GivesUp(cfg, db, tx) && ForeignKeys(db) && OpenSegments(db)
    ensures Step(cfg, db, tx.op).0 == db && Step(cfg, db, tx.op).1.Refused?
  {}

  lemma StartGivesUp(cfg: Config, db: Db, tx: Tx)
    requires tx.op.Start? && Shape(cfg, tx) && Current(db, tx) && Remembered(db, tx, {})
    requires GivesUp(cfg, db, tx) && ForeignKeys(db) && OpenSegments(db)
    ensures Step(cfg, db, tx.op).0 == db && NothingDone(Step(cfg, db, tx.op).1)
  {}

  lemma SwitchGivesUp(cfg: Config, db: Db, tx: Tx)
    requires (tx.op.Pause? || tx.op.Resume?) && Current(db, tx) && GivesUp(cfg, db, tx)
    requires ForeignKeys(db) && OpenSegments(db)
    ensures Step(cfg, db, tx.op).0 == db && NothingDone(Step(cfg, db, tx.op).1)
  {}

  lemma FinishGivesUp(cfg: Config, db: Db, tx: Tx)
    requires tx.op.Finish? && Current(db, tx) && GivesUp(cfg, db, tx) && ForeignKeys(db) && OpenSegments(db)
    ensures Step(cfg, db, tx.op).0 == db && Step(cfg, db, tx.op).1.Refused?
  {}

  lemma ReportGivesUp(cfg: Config, db: Db, tx: Tx)
    requires tx.op.Telemetry? && Shape(cfg, tx) && Current(db, tx) && Remembered(db, tx, {})
    requires GivesUp(cfg, db, tx) && ForeignKeys(db) && OpenSegments(db)
    ensures Step(cfg, db, tx.op).0 == db && Step(cfg, db, tx.op).1.Refused?
  {
    assert tx.op.scooter !in db.scooters;
    assert UnfinishedRideOn(db, tx.op.scooter).None?;
  }

  lemma SweepGoesOn(cfg: Config, db: Db, tx: Tx, quiet: set<nat>)
    requires tx.op.Sweep? && TxOk(cfg, db, tx, quiet) && ForeignKeys(db)
    ensures !GivesUp(cfg, db, tx)
  {
    if Next(cfg, tx).Take? {
      NextScooterNeeded(tx, tx.order.value, 0);
    }
  }

  /** In any interleaving: a transaction gives up only where the whole call, made at that moment,
      would change nothing and say so. */
  lemma GivingUpIsSerial(cfg: Config, sys: System, t: nat, quiet: set<nat>)
    requires SystemOk(cfg, sys, quiet) && t in sys.txs && GivesUp(cfg, sys.db, sys.txs[t])
    ensures ForeignKeys(sys.db) && OpenSegments(sys.db)
    ensures Step(cfg, sys.db, sys.txs[t].op).0 == sys.db && NothingDone(Step(cfg, sys.db, sys.txs[t].op).1)
  {
    Usable(sys.db);
    assert TxOk(cfg, sys.db, sys.txs[t], quiet);
    TxGivesUp(cfg, sys.db, sys.txs[t], quiet);
  }

  lemma TxGivesUp(cfg: Config, db: Db, tx: Tx, quiet: set<nat>)
    requires TxOk(cfg, db, tx, quiet) && GivesUp(cfg, db, tx) && ForeignKeys(db) && OpenSegments(db)
    ensures Step(cfg, db, tx.op).0 == db && NothingDone(Step(cfg, db, tx.op).1)
  {
    if tx.op.Create? {
      CreateGivesUp(cfg, db, tx);
    } else if tx.op.Cancel? {
      CancelGivesUp(cfg, db, tx);
    } else if tx.op.Sweep? {
      SweepGoesOn(cfg, db, tx, quiet);
    } else if tx.op.Start? {
      StartGivesUp(cfg, db, tx);
    } else if tx.op.Pause? || tx.op.Resume? {
      SwitchGivesUp(cfg, db, tx);
    } else if tx.op.Finish? {
      FinishGivesUp(cfg, db, tx);
    } else {
      ReportGivesUp(cfg, db, tx);
    }
  }

  // ----- going on

  /** A transaction that does not give up has a step to take as soon as nobody holds what it needs,
      and it is a step it has not taken. */
  lemma GoesOn(cfg: Config, sys: System, t: nat, quiet: set<nat>)
    requires SystemOk(cfg, sys, quiet) && t in sys.txs && !GivesUp(cfg, sys.db, sys.txs[t])
    ensures var tx := sys.txs[t];
      match Next(cfg, tx)
      case Take(k) => !HoldsKey(tx, k) && (FreeFor(sys, t, k) ==> Enabled(cfg, sys, Lock(t)))
      case CheckUser => !tx.checked && Enabled(cfg, sys, Check(t))
      case LookForRide => tx.lookUp == NotLooked && Enabled(cfg, sys, Look(t))
      case SelectOverdue => tx.order.None? && Enabled(cfg, sys, Select(t, []))
      case CommitNow => Enabled(cfg, sys, Commit(t))
      case Refuse => false
  {
    assert TxOk(cfg, sys.db, sys.txs[t], quiet);
    CopiesAreOpen(cfg, sys, t, quiet);
    NextIsNew(cfg, sys.txs[t]);
  }

  lemma NextIsNew(cfg: Config, tx: Tx)
    requires Shape(cfg, tx)
    ensures Next(cfg, tx).Take? ==> !HoldsKey(tx, Next(cfg, tx).key)
  {
    if tx.op.Sweep? && Next(cfg, tx).Take? {
      NextScooterNeeded(tx, tx.order.value, 0);
    }
  }

  // ----- a call by itself

  function Alone(db: Db, tx: Tx): System { System(db, map[0 := tx]) }

  /** What a call alone is: the sweeper's transaction expires everything overdue. */
  function AloneOp(db: Db, op: Op): Op {
    if op.Sweep? then Expire(OverdueBookings(db, op.now), op.now) else op
  }

  function Flag(open: bool): nat { if open then 1 else 0 }

  /** The kinds of steps still to take. */
  function StepsLeft(tx: Tx): nat {
    Flag(!tx.userLocked) + Flag(!tx.checked) + Flag(tx.lookUp == NotLooked) + Flag(tx.order.None?)
    + Flag(tx.bookings == map[]) + Flag(tx.rides == map[]) + Flag(tx.scooters == map[])
  }

  /** The scooters a sweep has still to lock. */
  function ScootersLeft(tx: Tx): set<nat> {
    (set b | b in tx.bookings :: tx.bookings[b].scooter) - tx.scooters.Keys
  }

  lemma LockIsProgress(cfg: Config, db: Db, tx: Tx)
    requires Shape(cfg, tx) && Next(cfg, tx).Take? && RowExists(db, Next(cfg, tx).key)
    ensures var after := Locked(db, tx, Next(cfg, tx).key);
      StepsLeft(after) < StepsLeft(tx) || (StepsLeft(after) == StepsLeft(tx) && ScootersLeft(after) < ScootersLeft(tx))
  {
    if tx.op.Sweep? {
      SweepLockIsProgress(cfg, db, tx);
    } else {
      NextIsNew(cfg, tx);
    }
  }

  lemma SweepLockIsProgress(cfg: Config, db: Db, tx: Tx)
    requires tx.op.Sweep? && Shape(cfg, tx) && Next(cfg, tx).Take? && RowExists(db, Next(cfg, tx).key)
    ensures var after := Locked(db, tx, Next(cfg, tx).key);
      StepsLeft(after) <= StepsLeft(tx) && ScootersLeft(after) < ScootersLeft(tx)
  {
    NextScooterNeeded(tx, tx.order.value, 0);
    var s := Next(cfg, tx).key.scooter;
    assert s in ScootersLeft(tx) && ScootersLeft(Locked(db, tx, Next(cfg, tx).key)) == ScootersLeft(tx) - {s};
  }

  lemma {:induction false} InSomeOrder(xs: set<nat>) returns (order: seq<nat>)
    ensures Transactions.Distinct(order) && forall x :: x in order <==> x in xs
  {
    if xs == {} {
      order := [];
    } else {
      var x :| x in xs;
      var rest := InSomeOrder(xs - {x});
      order := rest + [x];
      forall i, j | 0 <= i < j < |order| ensures order[i] != order[j] {
        assert rest[i] in rest;
      }
    }
  }

  /** One step before an execution. */
  lemma Prepend(cfg: Config, sys: System, a: Action, mid: System, rest: seq<Action>, end: System)
    requires Enabled(cfg, sys, a) && Apply(cfg, sys, a) == mid && Executes(cfg, mid, rest, end)
    ensures Executes(cfg, sys, [a] + rest, end)
    ensures Answers(cfg, sys, [a] + rest) == AnswersTo(cfg, sys, a) + Answers(cfg, mid, rest)
  {
    assert ([a] + rest)[1..] == rest;
  }

  /** The answers of a call by itself: its own, or none where it gave up with nothing done. */
  predicate AnsweredAlone(answers: seq<Outcome>, out: Outcome) {
    answers == [out] || (answers == [] && NothingDone(out))
  }

  /** What a transaction under way still has to show. */
  ghost predicate Going(cfg: Config, db: Db, tx: Tx, quiet: set<nat>) {
    && Consistent(db) && ForeignKeys(db) && OpenSegments(db) && TxOk(cfg, db, tx, quiet)
    && (tx.op.Telemetry? ==> tx.op.scooter in quiet)
    && (tx.order.Some? ==> (set b | b in tx.order.value) == OverdueBookings(db, tx.op.now))
  }

  predicate Nearer(after: Tx, tx: Tx) {
    || StepsLeft(after) < StepsLeft(tx)
    || (StepsLeft(after) == StepsLeft(tx) && ScootersLeft(after) < ScootersLeft(tx))
  }

  /** `a` takes the transaction from `tx` to `after`. */
  ghost predicate Goes(cfg: Config, db: Db, tx: Tx, a: Action, after: Tx) {
    && Enabled(cfg, Alone(db, tx), a) && Apply(cfg, Alone(db, tx), a) == Alone(db, after)
    && AnswersTo(cfg, Alone(db, tx), a) == []
  }

  lemma LockMoves(cfg: Config, db: Db, tx: Tx, quiet: set<nat>)
    requires Going(cfg, db, tx, quiet) && Next(cfg, tx).Take? && RowExists(db, Next(cfg, tx).key)
    ensures var after := Locked(db, tx, Next(cfg, tx).key);
      Goes(cfg, db, tx, Lock(0), after) && Going(cfg, db, after, quiet) && Nearer(after, tx) && after.op == tx.op
  {
    LockGoes(cfg, db, tx);
    LockKeeps(cfg, db, tx, quiet);
    LockIsProgress(cfg, db, tx);
  }

  lemma LockGoes(cfg: Config, db: Db, tx: Tx)
    requires Next(cfg, tx).Take? && RowExists(db, Next(cfg, tx).key)
    ensures Goes(cfg, db, tx, Lock(0), Locked(db, tx, Next(cfg, tx).key))
    ensures Locked(db, tx, Next(cfg, tx).key).op == tx.op && Locked(db, tx, Next(cfg, tx).key).order == tx.order
  {}

  lemma CheckMoves(cfg: Config, db: Db, tx: Tx, quiet: set<nat>)
    requires Going(cfg, db, tx, quiet) && Next(cfg, tx) == CheckUser && CheckPasses(db, tx.op)
    ensures var after := tx.(checked := true);
      Goes(cfg, db, tx, Check(0), after) && Going(cfg, db, after, quiet) && Nearer(after, tx)
  {
    CheckKeeps(cfg, db, tx, quiet);
  }

  lemma LookMoves(cfg: Config, db: Db, tx: Tx, quiet: set<nat>)
    requires Going(cfg, db, tx, quiet) && Next(cfg, tx) == LookForRide
    ensures var after := Looked(db, tx);
      Goes(cfg, db, tx, Look(0), after) && Going(cfg, db, after, quiet) && Nearer(after, tx) && after.op == tx.op
  {
    assert Meets(db, RidesC);
    LookKeeps(cfg, db, tx, quiet);
  }

  lemma SelectMoves(cfg: Config, db: Db, tx: Tx, quiet: set<nat>) returns (order: seq<nat>, after: Tx)
    requires Going(cfg, db, tx, quiet) && Next(cfg, tx) == SelectOverdue
    ensures Goes(cfg, db, tx, Select(0, order), after) && Going(cfg, db, after, quiet)
    ensures Nearer(after, tx) && after.op == tx.op
  {
    order := InSomeOrder(OverdueBookings(db, tx.op.now));
    assert (set b | b in order) == OverdueBookings(db, tx.op.now);
    after := tx.(order := Some(order), bookings := map b | b in order :: db.bookings[b]);
    SelectKeeps(cfg, db, tx, order, quiet);
  }

  lemma OneMove(cfg: Config, db: Db, tx: Tx, quiet: set<nat>) returns (a: Action, after: Tx)
    requires Going(cfg, db, tx, quiet) && !GivesUp(cfg, db, tx) && Next(cfg, tx) != CommitNow
    ensures Goes(cfg, db, tx, a, after) && Going(cfg, db, after, quiet)
    ensures Nearer(after, tx) && after.op == tx.op
  {
    match Next(cfg, tx)
    case Take(k) =>
      LockMoves(cfg, db, tx, quiet);
      a, after := Lock(0), Locked(db, tx, k);
    case CheckUser =>
      CheckMoves(cfg, db, tx, quiet);
      a, after := Check(0), tx.(checked := true);
    case LookForRide =>
      LookMoves(cfg, db, tx, quiet);
      a, after := Look(0), Looked(db, tx);
    case SelectOverdue =>
      var order;
      order, after := SelectMoves(cfg, db, tx, quiet);
      a := Select(0, order);
  }

  lemma LastMove(cfg: Config, sys: System, a: Action, end: System)
    requires Enabled(cfg, sys, a) && Apply(cfg, sys, a) == end
    ensures Executes(cfg, sys, [a], end) && Answers(cfg, sys, [a]) == AnswersTo(cfg, sys, a)
  {
    Prepend(cfg, sys, a, end, [], end);
    assert [a] + [] == [a];
  }

  lemma CommitsAlone(cfg: Config, db: Db, tx: Tx, quiet: set<nat>)
    requires Going(cfg, db, tx, quiet) && Next(cfg, tx) == CommitNow
    ensures var (after, out) := Step(cfg, db, AloneOp(db, tx.op));
      && Executes(cfg, Alone(db, tx), [Commit(0)], System(after, map[]))
      && Answers(cfg, Alone(db, tx), [Commit(0)]) == [out]
  {
    HasOpenCopies(db, tx);
    CommitIsSerial(cfg, db, tx, quiet);
    ReplyIsSerial(cfg, db, tx, quiet);
    AloneIsSerial(cfg, db, tx, quiet);
    CommitEnds(cfg, db, tx);
  }

  lemma CommitEnds(cfg: Config, db: Db, tx: Tx)
    requires Next(cfg, tx) == CommitNow && OpenCopies(tx)
    ensures Executes(cfg, Alone(db, tx), [Commit(0)], System(Write(cfg, db, tx), map[]))
    ensures Answers(cfg, Alone(db, tx), [Commit(0)]) == [Reply(cfg, db, tx)]
  {
    assert map[0 := tx] - {0} == map[];
    LastMove(cfg, Alone(db, tx), Commit(0), System(Write(cfg, db, tx), map[]));
  }

  lemma AloneIsSerial(cfg: Config, db: Db, tx: Tx, quiet: set<nat>)
    requires Shape(cfg, tx) && Next(cfg, tx) == CommitNow
    requires tx.op.Telemetry? ==> tx.op.scooter in quiet
    requires tx.order.Some? ==> (set b | b in tx.order.value) == OverdueBookings(db, tx.op.now)
    ensures SerialOp(cfg, tx, quiet) == AloneOp(db, tx.op)
  {}

  lemma HasOpenCopies(db: Db, tx: Tx)
    requires OpenSegments(db) && Current(db, tx)
    ensures OpenCopies(tx)
  {}

  lemma AbortsAlone(cfg: Config, db: Db, tx: Tx, quiet: set<nat>)
    requires Going(cfg, db, tx, quiet) && GivesUp(cfg, db, tx)
    ensures var (after, out) := Step(cfg, db, AloneOp(db, tx.op));
      && NothingDone(out)
      && Executes(cfg, Alone(db, tx), [Abort(0)], System(after, map[])) && Answers(cfg, Alone(db, tx), [Abort(0)]) == []
  {
    TxGivesUp(cfg, db, tx, quiet);
    if tx.op.Sweep? {
      SweepGoesOn(cfg, db, tx, quiet);
    }
    assert map[0 := tx] - {0} == map[];
    LastMove(cfg, Alone(db, tx), Abort(0), System(db, map[]));
  }

  /** By itself it runs to its end, and leaves the tables and the answer of the whole call. */
  lemma {:induction false} RunsOut(cfg: Config, db: Db, tx: Tx, quiet: set<nat>) returns (acts: seq<Action>)
    requires Going(cfg, db, tx, quiet)
    ensures Executes(cfg, Alone(db, tx), acts, System(Step(cfg, db, AloneOp(db, tx.op)).0, map[]))
    ensures AnsweredAlone(Answers(cfg, Alone(db, tx), acts), Step(cfg, db, AloneOp(db, tx.op)).1)
    decreases StepsLeft(tx), ScootersLeft(tx)
  {
    if GivesUp(cfg, db, tx) {
      AbortsAlone(cfg, db, tx, quiet);
      acts := [Abort(0)];
    } else if Next(cfg, tx) == CommitNow {
      CommitsAlone(cfg, db, tx, quiet);
      acts := [Commit(0)];
    } else {
      var a, after := OneMove(cfg, db, tx, quiet);
      var rest := RunsOut(cfg, db, after, quiet);
      acts := [a] + rest;
      Prepend(cfg, Alone(db, tx), a, Alone(db, after), rest, System(Step(cfg, db, AloneOp(db, tx.op)).0, map[]));
    }
  }

  /** From idle tables any call begins, runs out and leaves idle tables: what the whole call makes
      of them. */
  lemma CallRuns(cfg: Config, db: Db, op: Op) returns (acts: seq<Action>)
    requires Consistent(db) && IsCall(op)
    ensures ForeignKeys(db) && OpenSegments(db)
    ensures Executes(cfg, System(db, map[]), acts, System(Step(cfg, db, AloneOp(db, op)).0, map[]))
    ensures AnsweredAlone(Answers(cfg, System(db, map[]), acts), Step(cfg, db, AloneOp(db, op)).1)
  {
    Usable(db);
    var quiet := if op.Telemetry? then {op.scooter} else {};
    NewTxOk(cfg, db, op, quiet);
    var rest := RunsOut(cfg, db, NewTx(op), quiet);
    acts := [Begin(0, op)] + rest;
    assert Apply(cfg, System(db, map[]), Begin(0, op)) == Alone(db, NewTx(op));
    Prepend(cfg, System(db, map[]), Begin(0, op), Alone(db, NewTx(op)), rest,
            System(Step(cfg, db, AloneOp(db, op)).0, map[]));
  }

  /** A whole pass of the sweeper is its transaction and the warning after it. */
  lemma PassRuns(cfg: Config, db: Db, now: int) returns (acts: seq<Action>)
    requires Consistent(db)
    ensures ForeignKeys(db) && OpenSegments(db)
    ensures Executes(cfg, System(db, map[]), acts, System(Step(cfg, db, Sweep(now)).0, map[]))
  {
    var first := CallRuns(cfg, db, Sweep(now));
    var swept, end := Step(cfg, db, AloneOp(db, Sweep(now))).0, Step(cfg, db, Sweep(now)).0;
    LastMove(cfg, System(swept, map[]), WarnAll(now), System(end, map[]));
    Then(cfg, System(db, map[]), first, System(swept, map[]), [WarnAll(now)], System(end, map[]));
    acts := first + [WarnAll(now)];
  }

  /** Every run of whole calls is an execution: whatever tables calls one after the other can reach,
      transactions can. */
  lemma {:induction false} RunsAreExecutions(cfg: Config, db: Db, ops: seq<Op>) returns (acts: seq<Action>)
    requires Consistent(db) && forall i :: 0 <= i < |ops| ==> IsCall(ops[i])
    ensures Executes(cfg, System(db, map[]), acts, System(Run(cfg, db, ops), map[]))
    decreases |ops|
  {
    if ops == [] {
      acts := [];
    } else {
      StepKeeps(cfg, db, ops[0]);
      var after := Step(cfg, db, ops[0]).0;
      var first;
      if ops[0].Sweep? {
        first := PassRuns(cfg, db, ops[0].now);
      } else {
        first := CallRuns(cfg, db, ops[0]);
      }
      var rest := RunsAreExecutions(cfg, after, ops[1..]);
      Then(cfg, System(db, map[]), first, System(after, map[]), rest, System(Run(cfg, db, ops), map[]));
      acts := first + rest;
    }
  }
}
