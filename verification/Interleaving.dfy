/** Every interleaving of the transactions is serial in commit order. */
module Interleaving {
  import opened Options
  import opened Timeline
  import opened Tables
  import opened Services
  import opened Consistency
  import opened History
  import opened Transactions

  // ----- the invariant of transactions under way

  /** Which rows a transaction can hold at all, and in what order it came by them. */
  ghost predicate Shape(cfg: Config, tx: Tx) {
    && IsCall(tx.op)
    && (tx.userLocked ==> tx.op.Create? || tx.op.Start?)
    && (tx.checked ==> tx.userLocked)
    && (tx.lookUp != NotLooked ==> tx.op.Telemetry?)
    && (tx.order.Some? ==> tx.op.Sweep?)
    && match tx.op
       case Create(_, s, _, _) =>
         && tx.bookings == map[] && tx.rides == map[] && tx.scooters.Keys <= {s}
         && (tx.scooters != map[] ==> tx.userLocked)
       case Cancel(_, b, _) =>
         && tx.bookings.Keys <= {b} && tx.rides == map[]
         && (tx.scooters != map[] ==> b in tx.bookings && tx.scooters.Keys <= {tx.bookings[b].scooter})
       case Sweep(now) =>
         && tx.rides == map[]
         && (tx.order.None? ==> tx.bookings == map[] && tx.scooters == map[])
         && (tx.order.Some? ==> forall b :: b in tx.bookings <==> b in tx.order.value)
         && (forall b :: b in tx.bookings ==> Overdue(tx.bookings[b], now))
         && (forall s :: s in tx.scooters ==> exists b :: b in tx.bookings && tx.bookings[b].scooter == s)
       case Start(_, b, _) =>
         && tx.bookings.Keys <= {b} && tx.rides == map[]
         && (tx.bookings != map[] ==> tx.userLocked)
         && (tx.scooters != map[] ==> b in tx.bookings && tx.checked && tx.scooters.Keys <= {tx.bookings[b].scooter})
       case Pause(_, r, _) => RideShape(tx, r)
       case Resume(_, r, _) => RideShape(tx, r)
       case Finish(_, r, _, _) => RideShape(tx, r)
       case Telemetry(s, _, _, _, _) =>
         && tx.bookings == map[] && tx.scooters.Keys <= {s}
         && (forall r :: r in tx.rides ==> tx.lookUp == FoundRide(r) && tx.rides[r].scooter == s)
         && (tx.lookUp.FoundRide? && tx.scooters != map[] ==> tx.lookUp.ride in tx.rides)
         && (tx.lookUp == NotLooked && tx.scooters != map[] ==> tx.op.battery >= cfg.autoFinishBattery)
         && (tx.lookUp == NotLooked ==> tx.rides == map[])
         && (tx.lookUp != NotLooked ==> tx.op.battery < cfg.autoFinishBattery)
       case Expire(_, _) => false
       case Warn(_) => false
       case Report(_, _, _) => false
  }

  predicate RideShape(tx: Tx, r: nat) {
    && tx.bookings == map[] && tx.rides.Keys <= {r}
    && (tx.scooters != map[] ==> r in tx.rides && tx.scooters.Keys <= {tx.rides[r].scooter})
  }

  /** A locked row is still what it was when the lock was taken. */
  predicate Current(db: Db, tx: Tx) {
    && (forall b :: b in tx.bookings ==> b in db.bookings && db.bookings[b] == tx.bookings[b])
    && (forall r :: r in tx.rides ==> r in db.rides && db.rides[r] == tx.rides[r])
    && (forall s :: s in tx.scooters ==> s in db.scooters && db.scooters[s] == tx.scooters[s])
  }

  /** What was read without a lock on it, and still holds: the user's lock keeps new bookings and
      rides away; a ride once found on a scooter stays that scooter's; and on a scooter where no
      ride starts in the meantime, no other ride can have come. */
  ghost predicate Remembered(db: Db, tx: Tx, quiet: set<nat>) {
    && (tx.checked ==> CheckPasses(db, tx.op))
    && (tx.op.Telemetry? && tx.lookUp.FoundRide? ==>
          tx.lookUp.ride in db.rides && db.rides[tx.lookUp.ride].scooter == tx.op.scooter)
    && (tx.op.Telemetry? && tx.lookUp != NotLooked && tx.op.scooter in quiet ==>
          forall r :: RideOn(db, r, tx.op.scooter) ==> tx.lookUp == FoundRide(r))
  }

  ghost predicate TxOk(cfg: Config, db: Db, tx: Tx, quiet: set<nat>) {
    Shape(cfg, tx) && Current(db, tx) && Remembered(db, tx, quiet)
  }

  /** No two transactions hold one lock. */
  ghost predicate Exclusive(sys: System) {
    forall t, u, k :: t in sys.txs && u in sys.txs && t != u ==> !(HoldsKey(sys.txs[t], k) && HoldsKey(sys.txs[u], k))
  }

  ghost predicate SystemOk(cfg: Config, sys: System, quiet: set<nat>) {
    && Consistent(sys.db) && Exclusive(sys)
    && forall t :: t in sys.txs ==> TxOk(cfg, sys.db, sys.txs[t], quiet)
  }

  // ----- a commit is one serial call

  /** The serial call a commit amounts to. A report below the threshold that found no ride to end
      is the bare report, unless its scooter is one where no ride starts meanwhile. */
  function SerialOp(cfg: Config, tx: Tx, quiet: set<nat>): Op {
    if tx.op.Sweep? && tx.order.Some? then Expire((set b | b in tx.order.value), tx.op.now)
    else if tx.op.Telemetry? && tx.op.battery < cfg.autoFinishBattery && !EndsFound(cfg, tx)
            && tx.op.scooter !in quiet then
      Report(tx.op.scooter, tx.op.position, tx.op.battery)
    else tx.op
  }

  lemma CreateIsSerial(cfg: Config, db: Db, tx: Tx)
    requires tx.op.Create? && Shape(cfg, tx) && Current(db, tx) && Next(cfg, tx) == CommitNow && OpenCopies(tx)
    requires Consistent(db) && ForeignKeys(db) && OpenSegments(db) && CheckPasses(db, tx.op)
    ensures Write(cfg, db, tx) == Step(cfg, db, tx.op).0
  {
    CreateKeeps(cfg, db, tx.op.user, tx.op.scooter, tx.op.createdAt, tx.op.now);
  }

  lemma CancelIsSerial(cfg: Config, db: Db, tx: Tx)
    requires tx.op.Cancel? && Shape(cfg, tx) && Current(db, tx) && Next(cfg, tx) == CommitNow && OpenCopies(tx)
    requires ForeignKeys(db) && OpenSegments(db)
    ensures Write(cfg, db, tx) == Step(cfg, db, tx.op).0
  {
    var b := tx.op.booking;
    var after := EndBookings(db, {b}, Cancelled, tx.op.now, cfg.lowBattery);
    assert Write(cfg, db, tx).bookings == after.bookings;
    assert BookedBy(db, {b}, tx.bookings[b].scooter);
    assert Write(cfg, db, tx).scooters == after.scooters;
  }

  lemma {:induction false} AllScootersHeld(tx: Tx, order: seq<nat>, i: nat, j: nat)
    requires i <= j < |order| && NextScooter(tx, order, i).None?
    requires order[j] in tx.bookings
    ensures tx.bookings[order[j]].scooter in tx.scooters
    decreases |order| - i
  {
    if i < j {
      AllScootersHeld(tx, order, i + 1, j);
    }
  }

  /** Overlaying the copies of the ended bookings and of exactly their scooters. */
  lemma OverlayIsEnding(db: Db, bookings: map<nat, Booking>, scooters: map<nat, Scooter>, now: int, low: int)
    requires forall b :: b in bookings ==> b in db.bookings && db.bookings[b] == bookings[b]
    requires forall s :: s in scooters ==> s in db.scooters && db.scooters[s] == scooters[s]
    requires forall s :: s in scooters <==> exists b :: b in bookings && bookings[b].scooter == s
    ensures EndBookings(db, bookings.Keys, Expired, now, low)
      == db.(bookings := db.bookings + map b | b in bookings :: EndedRow(bookings[b], Expired, now),
             scooters := db.scooters + map s | s in scooters :: ReleasedRow(scooters[s], low))
  {
    var after := EndBookings(db, bookings.Keys, Expired, now, low);
    assert after.bookings == db.bookings + map b | b in bookings :: EndedRow(bookings[b], Expired, now);
    assert forall s :: BookedBy(db, bookings.Keys, s) <==> s in scooters;
    assert after.scooters == db.scooters + map s | s in scooters :: ReleasedRow(scooters[s], low);
  }

  lemma SweptScooters(cfg: Config, tx: Tx)
    requires tx.op.Sweep? && Shape(cfg, tx) && Next(cfg, tx) == CommitNow
    ensures forall s :: s in tx.scooters <==> exists b :: b in tx.bookings && tx.bookings[b].scooter == s
  {
    var order := tx.order.value;
    forall b | b in tx.bookings ensures tx.bookings[b].scooter in tx.scooters {
      var j :| 0 <= j < |order| && order[j] == b;
      AllScootersHeld(tx, order, 0, j);
    }
  }

  lemma SweptBatch(cfg: Config, db: Db, tx: Tx)
    requires tx.op.Sweep? && tx.order.Some? && Shape(cfg, tx) && Current(db, tx)
    ensures (set b | b in tx.order.value) * OverdueBookings(db, tx.op.now) == tx.bookings.Keys
  {}

  lemma SweepIsSerial(cfg: Config, db: Db, tx: Tx, quiet: set<nat>)
    requires tx.op.Sweep? && Shape(cfg, tx) && Current(db, tx) && Next(cfg, tx) == CommitNow && OpenCopies(tx)
    requires ForeignKeys(db) && OpenSegments(db)
    ensures Write(cfg, db, tx) == Step(cfg, db, SerialOp(cfg, tx, quiet)).0
  {
    SweptScooters(cfg, tx);
    SweptBatch(cfg, db, tx);
    OverlayIsEnding(db, tx.bookings, tx.scooters, tx.op.now, cfg.lowBattery);
  }

  lemma StartIsSerial(cfg: Config, db: Db, tx: Tx)
    requires tx.op.Start? && Shape(cfg, tx) && Current(db, tx) && Next(cfg, tx) == CommitNow && OpenCopies(tx)
    requires Consistent(db) && ForeignKeys(db) && OpenSegments(db) && CheckPasses(db, tx.op)
    ensures Write(cfg, db, tx) == Step(cfg, db, tx.op).0
  {
    StartKeeps(cfg, db, tx.op.user, tx.op.booking, tx.op.now);
  }

  lemma SwitchIsSerial(cfg: Config, db: Db, tx: Tx)
    requires tx.op.Pause? || tx.op.Resume?
    requires Shape(cfg, tx) && Current(db, tx) && Next(cfg, tx) == CommitNow && OpenCopies(tx)
    requires ForeignKeys(db) && OpenSegments(db)
    ensures Write(cfg, db, tx) == Step(cfg, db, tx.op).0
  {}

  lemma FinishIsSerial(cfg: Config, db: Db, tx: Tx)
    requires tx.op.Finish? && Shape(cfg, tx) && Current(db, tx) && Next(cfg, tx) == CommitNow && OpenCopies(tx)
    requires ForeignKeys(db) && OpenSegments(db)
    ensures Write(cfg, db, tx) == Step(cfg, db, tx.op).0
  {}

  /** A report that ends its ride is the serial one: the ride it locked is the only one there. */
  lemma EndingReportIsSerial(cfg: Config, db: Db, tx: Tx)
    requires EndsFound(cfg, tx) && Shape(cfg, tx) && Current(db, tx) && Next(cfg, tx) == CommitNow && OpenCopies(tx)
    requires ForeignKeys(db) && OpenSegments(db)
    requires UnfinishedRideOn(db, tx.op.scooter) == Some(tx.lookUp.ride)
    ensures Write(cfg, db, tx) == Step(cfg, db, tx.op).0
  {}

  /** Any other report writes what the bare report writes, and that is the whole report exactly
      when the charge is no reason to end a ride or there is none on the scooter at commit. */
  lemma PlainReportIsSerial(cfg: Config, db: Db, tx: Tx)
    requires tx.op.Telemetry? && !EndsFound(cfg, tx)
    requires Shape(cfg, tx) && Current(db, tx) && Next(cfg, tx) == CommitNow && OpenCopies(tx)
    requires ForeignKeys(db) && OpenSegments(db)
    ensures Write(cfg, db, tx) == Step(cfg, db, Report(tx.op.scooter, tx.op.position, tx.op.battery)).0
    ensures Write(cfg, db, tx) == Step(cfg, db, tx.op).0
      <==> tx.op.battery >= cfg.autoFinishBattery || forall r :: !RideOn(db, r, tx.op.scooter)
  {
    var s := tx.op.scooter;
    if tx.op.battery < cfg.autoFinishBattery && exists r :: RideOn(db, r, s) {
      var r := UnfinishedRideOn(db, s).value;
      assert Step(cfg, db, tx.op).0.rides[r].status == Finished;
      assert Write(cfg, db, tx).rides[r].status != Finished;
    }
  }

  lemma CommitIsSerial(cfg: Config, db: Db, tx: Tx, quiet: set<nat>)
    requires Consistent(db) && TxOk(cfg, db, tx, quiet) && Next(cfg, tx) == CommitNow && OpenCopies(tx)
    ensures ForeignKeys(db) && OpenSegments(db)
    ensures Write(cfg, db, tx) == Step(cfg, db, SerialOp(cfg, tx, quiet)).0
  {
    Usable(db);
    if tx.op.Create? {
      CreateIsSerial(cfg, db, tx);
    } else if tx.op.Cancel? {
      CancelIsSerial(cfg, db, tx);
    } else if tx.op.Sweep? {
      SweepIsSerial(cfg, db, tx, quiet);
    } else if tx.op.Start? {
      StartIsSerial(cfg, db, tx);
    } else if tx.op.Pause? || tx.op.Resume? {
      SwitchIsSerial(cfg, db, tx);
    } else if tx.op.Finish? {
      FinishIsSerial(cfg, db, tx);
    } else {
      ReportIsSerial(cfg, db, tx, quiet);
    }
  }

  lemma ReportIsSerial(cfg: Config, db: Db, tx: Tx, quiet: set<nat>)
    requires tx.op.Telemetry? && Consistent(db) && TxOk(cfg, db, tx, quiet)
    requires Next(cfg, tx) == CommitNow && OpenCopies(tx)
    requires ForeignKeys(db) && OpenSegments(db)
    ensures Write(cfg, db, tx) == Step(cfg, db, SerialOp(cfg, tx, quiet)).0
  {
    assert Meets(db, RidesC);
    if EndsFound(cfg, tx) {
      OnlyRideOn(db, tx.lookUp.ride, tx.op.scooter);
      EndingReportIsSerial(cfg, db, tx);
    } else {
      PlainReportIsSerial(cfg, db, tx);
      if tx.op.battery < cfg.autoFinishBattery && tx.op.scooter in quiet {
        forall r ensures !RideOn(db, r, tx.op.scooter) {}
      }
    }
  }

  // ----- and what its caller is told

  lemma CreateReply(cfg: Config, db: Db, tx: Tx)
    requires tx.op.Create? && Shape(cfg, tx) && Current(db, tx) && Next(cfg, tx) == CommitNow && OpenCopies(tx)
    requires Consistent(db) && ForeignKeys(db) && OpenSegments(db) && CheckPasses(db, tx.op)
    ensures Reply(cfg, db, tx) == Step(cfg, db, tx.op).1
  {
    CreateKeeps(cfg, db, tx.op.user, tx.op.scooter, tx.op.createdAt, tx.op.now);
  }

  lemma StartReply(cfg: Config, db: Db, tx: Tx)
    requires tx.op.Start? && Shape(cfg, tx) && Current(db, tx) && Next(cfg, tx) == CommitNow && OpenCopies(tx)
    requires Consistent(db) && ForeignKeys(db) && OpenSegments(db) && CheckPasses(db, tx.op)
    ensures Reply(cfg, db, tx) == Step(cfg, db, tx.op).1
  {
    StartKeeps(cfg, db, tx.op.user, tx.op.booking, tx.op.now);
  }

  lemma CancelReply(cfg: Config, db: Db, tx: Tx)
    requires tx.op.Cancel? && Current(db, tx) && Next(cfg, tx) == CommitNow && OpenCopies(tx)
    requires ForeignKeys(db) && OpenSegments(db)
    ensures Reply(cfg, db, tx) == Step(cfg, db, tx.op).1
  {}

  lemma SwitchReply(cfg: Config, db: Db, tx: Tx)
    requires (tx.op.Pause? || tx.op.Resume?) && Current(db, tx) && Next(cfg, tx) == CommitNow && OpenCopies(tx)
    requires ForeignKeys(db) && OpenSegments(db)
    ensures Reply(cfg, db, tx) == Step(cfg, db, tx.op).1
  {}

  lemma FinishReply(cfg: Config, db: Db, tx: Tx)
    requires tx.op.Finish? && Shape(cfg, tx) && Current(db, tx) && Next(cfg, tx) == CommitNow && OpenCopies(tx)
    requires ForeignKeys(db) && OpenSegments(db)
    ensures Reply(cfg, db, tx) == Step(cfg, db, tx.op).1
  {}

  lemma ReportReply(cfg: Config, db: Db, tx: Tx, quiet: set<nat>)
    requires tx.op.Telemetry? && Consistent(db) && TxOk(cfg, db, tx, quiet)
    requires Next(cfg, tx) == CommitNow && OpenCopies(tx)
    requires ForeignKeys(db) && OpenSegments(db)
    ensures Reply(cfg, db, tx) == Step(cfg, db, SerialOp(cfg, tx, quiet)).1
  {
    assert Meets(db, RidesC);
    if EndsFound(cfg, tx) {
      OnlyRideOn(db, tx.lookUp.ride, tx.op.scooter);
    } else if tx.op.battery < cfg.autoFinishBattery && tx.op.scooter in quiet {
      forall r ensures !RideOn(db, r, tx.op.scooter) {}
    }
  }

  /** The caller is told what the serial call would tell. */
  lemma ReplyIsSerial(cfg: Config, db: Db, tx: Tx, quiet: set<nat>)
    requires Consistent(db) && TxOk(cfg, db, tx, quiet) && Next(cfg, tx) == CommitNow && OpenCopies(tx)
    ensures ForeignKeys(db) && OpenSegments(db)
    ensures Reply(cfg, db, tx) == Step(cfg, db, SerialOp(cfg, tx, quiet)).1
  {
    Usable(db);
    if tx.op.Create? {
      CreateReply(cfg, db, tx);
    } else if tx.op.Cancel? {
      CancelReply(cfg, db, tx);
    } else if tx.op.Sweep? {
      SweptBatch(cfg, db, tx);
    } else if tx.op.Start? {
      StartReply(cfg, db, tx);
    } else if tx.op.Pause? || tx.op.Resume? {
      SwitchReply(cfg, db, tx);
    } else if tx.op.Finish? {
      FinishReply(cfg, db, tx);
    } else {
      ReportReply(cfg, db, tx, quiet);
    }
  }

  /** A start that holds its user's active booking never refuses for the user's rides or for the
      scooter's status: of the checks left, only the booking's expiry and the charge can. */
  lemma StartIsReady(cfg: Config, sys: System, t: nat, quiet: set<nat>)
    requires SystemOk(cfg, sys, quiet) && t in sys.txs && sys.txs[t].op.Start?
    requires var tx := sys.txs[t]; var b := tx.op.booking;
      b in tx.bookings && tx.bookings[b].user == tx.op.user && tx.bookings[b].status == Holding
    ensures var tx := sys.txs[t]; var booking := tx.bookings[tx.op.booking];
      && CheckPasses(sys.db, tx.op)
      && booking.scooter in sys.db.scooters && sys.db.scooters[booking.scooter].status == Reserved
      && (Next(cfg, tx) == Refuse ==>
            || booking.expiresAt <= tx.op.now
            || (booking.scooter in tx.scooters && tx.scooters[booking.scooter].battery < cfg.lowBattery))
  {
    assert TxOk(cfg, sys.db, sys.txs[t], quiet);
    ActiveBookingIsReady(sys.db, sys.txs[t].op.booking);
  }

  /** The assertion that an unfinished ride has its open segment never fails: every copy has one,
      so asking for it at commit holds nobody up. */
  lemma CopiesAreOpen(cfg: Config, sys: System, t: nat, quiet: set<nat>)
    requires SystemOk(cfg, sys, quiet) && t in sys.txs
    ensures OpenCopies(sys.txs[t])
    ensures Next(cfg, sys.txs[t]) == CommitNow ==> Enabled(cfg, sys, Commit(t))
  {
    Usable(sys.db);
    assert TxOk(cfg, sys.db, sys.txs[t], quiet);
  }

  // ----- steps of one transaction

  lemma NewTxOk(cfg: Config, db: Db, op: Op, quiet: set<nat>)
    requires IsCall(op)
    ensures TxOk(cfg, db, NewTx(op), quiet)
    ensures forall k :: !HoldsKey(NewTx(op), k)
  {}

  lemma {:induction false} NextScooterNeeded(tx: Tx, order: seq<nat>, i: nat)
    requires i <= |order| && NextScooter(tx, order, i).Some?
    ensures exists b :: b in tx.bookings && tx.bookings[b].scooter == NextScooter(tx, order, i).value
    ensures NextScooter(tx, order, i).value !in tx.scooters
    decreases |order| - i
  {
    if !(order[i] in tx.bookings && tx.bookings[order[i]].scooter !in tx.scooters) {
      NextScooterNeeded(tx, order, i + 1);
    }
  }

  lemma LockKeepsShape(cfg: Config, db: Db, tx: Tx, quiet: set<nat>)
    requires TxOk(cfg, db, tx, quiet) && Next(cfg, tx).Take? && RowExists(db, Next(cfg, tx).key)
    ensures Shape(cfg, Locked(db, tx, Next(cfg, tx).key))
  {
    if tx.op.Sweep? {
      NextScooterNeeded(tx, tx.order.value, 0);
    }
  }

  lemma LockKeepsCurrent(db: Db, tx: Tx, k: Key, quiet: set<nat>)
    requires Current(db, tx) && Remembered(db, tx, quiet) && RowExists(db, k)
    ensures Current(db, Locked(db, tx, k)) && Remembered(db, Locked(db, tx, k), quiet)
  {}

  lemma LockKeeps(cfg: Config, db: Db, tx: Tx, quiet: set<nat>)
    requires TxOk(cfg, db, tx, quiet) && Next(cfg, tx).Take? && RowExists(db, Next(cfg, tx).key)
    ensures TxOk(cfg, db, Locked(db, tx, Next(cfg, tx).key), quiet)
  {
    LockKeepsShape(cfg, db, tx, quiet);
    LockKeepsCurrent(db, tx, Next(cfg, tx).key, quiet);
  }

  lemma LockAddsKey(cfg: Config, db: Db, tx: Tx)
    requires Next(cfg, tx).Take? && RowExists(db, Next(cfg, tx).key)
    ensures forall k :: HoldsKey(Locked(db, tx, Next(cfg, tx).key), k) ==> HoldsKey(tx, k) || k == Next(cfg, tx).key
  {}

  lemma CheckKeeps(cfg: Config, db: Db, tx: Tx, quiet: set<nat>)
    requires TxOk(cfg, db, tx, quiet) && Next(cfg, tx) == CheckUser && CheckPasses(db, tx.op)
    ensures TxOk(cfg, db, tx.(checked := true), quiet)
  {}

  lemma LookKeeps(cfg: Config, db: Db, tx: Tx, quiet: set<nat>)
    requires RideIndexes(db) && TxOk(cfg, db, tx, quiet) && Next(cfg, tx) == LookForRide
    ensures TxOk(cfg, db, Looked(db, tx), quiet)
  {
    var found := UnfinishedRideOn(db, tx.op.scooter);
    if found.Some? {
      assert RideOn(db, found.value, tx.op.scooter);
      assert forall q :: RideOn(db, q, tx.op.scooter) ==> q == found.value;
    }
  }

  lemma SelectKeeps(cfg: Config, db: Db, tx: Tx, order: seq<nat>, quiet: set<nat>)
    requires TxOk(cfg, db, tx, quiet) && Next(cfg, tx) == SelectOverdue
    requires forall b :: b in order ==> b in db.bookings && Overdue(db.bookings[b], tx.op.now)
    ensures TxOk(cfg, db, tx.(order := Some(order), bookings := map b | b in order :: db.bookings[b]), quiet)
  {}

  // ----- what a commit means for the others

  /** Rows a transaction does not hold are not written. */
  ghost predicate Untouched(db: Db, after: Db, tx: Tx) {
    && (forall b :: b in db.bookings && b !in tx.bookings ==>
          b in after.bookings && after.bookings[b] == db.bookings[b])
    && (forall r :: r in db.rides && r !in tx.rides ==> r in after.rides && after.rides[r] == db.rides[r])
    && (forall s :: s in db.scooters && s !in tx.scooters ==>
          s in after.scooters && after.scooters[s] == db.scooters[s])
  }

  /** Bookings and rides come only with their user's lock held, and rides only to the scooter of
      the booking they start from. */
  ghost predicate NothingNew(db: Db, after: Db, tx: Tx) {
    && (forall b :: ActiveBooking(after, b) ==>
          || (ActiveBooking(db, b) && after.bookings[b].user == db.bookings[b].user)
          || (HoldsKey(tx, UserKey(after.bookings[b].user))))
    && (forall r :: Unfinished(after, r) ==>
          || (Unfinished(db, r) && after.rides[r].user == db.rides[r].user
              && after.rides[r].scooter == db.rides[r].scooter)
          || (HoldsKey(tx, UserKey(after.rides[r].user)) && StartsOn(tx, after.rides[r].scooter)))
    && (forall r :: r in db.rides ==> r in after.rides && after.rides[r].scooter == db.rides[r].scooter)
  }

  predicate StartsOn(tx: Tx, s: nat) {
    tx.op.Start? && tx.op.booking in tx.bookings && tx.bookings[tx.op.booking].scooter == s
  }

  lemma OtherStays(cfg: Config, db: Db, after: Db, tx: Tx, other: Tx, quiet: set<nat>)
    requires TxOk(cfg, db, other, quiet) && Untouched(db, after, tx) && NothingNew(db, after, tx)
    requires forall k :: !(HoldsKey(tx, k) && HoldsKey(other, k))
    requires forall s :: s in quiet ==> !StartsOn(tx, s)
    ensures TxOk(cfg, after, other, quiet)
  {
    forall b | b in other.bookings ensures b !in tx.bookings { assert HoldsKey(other, BookingKey(b)); }
    forall r | r in other.rides ensures r !in tx.rides { assert HoldsKey(other, RideKey(r)); }
    forall s | s in other.scooters ensures s !in tx.scooters { assert HoldsKey(other, ScooterKey(s)); }
    if other.checked {
      assert HoldsKey(other, UserKey(other.op.user));
      assert !HoldsKey(tx, UserKey(other.op.user));
    }
  }

  lemma CreateWrites(cfg: Config, db: Db, tx: Tx)
    requires (tx.op.Create?) && Shape(cfg, tx) && Current(db, tx)
    requires Next(cfg, tx) == CommitNow && OpenCopies(tx) && IdsOk(db)
    ensures Untouched(db, Write(cfg, db, tx), tx) && NothingNew(db, Write(cfg, db, tx), tx)
  {}

  lemma CancelWrites(cfg: Config, db: Db, tx: Tx)
    requires (tx.op.Cancel?) && Shape(cfg, tx) && Current(db, tx)
    requires Next(cfg, tx) == CommitNow && OpenCopies(tx)
    ensures Untouched(db, Write(cfg, db, tx), tx) && NothingNew(db, Write(cfg, db, tx), tx)
  {}

  lemma SweepWrites(cfg: Config, db: Db, tx: Tx)
    requires (tx.op.Sweep?) && Shape(cfg, tx) && Current(db, tx)
    requires Next(cfg, tx) == CommitNow && OpenCopies(tx)
    ensures Untouched(db, Write(cfg, db, tx), tx) && NothingNew(db, Write(cfg, db, tx), tx)
  {}

  lemma StartWrites(cfg: Config, db: Db, tx: Tx)
    requires (tx.op.Start?) && Shape(cfg, tx) && Current(db, tx)
    requires Next(cfg, tx) == CommitNow && OpenCopies(tx) && IdsOk(db)
    ensures Untouched(db, Write(cfg, db, tx), tx) && NothingNew(db, Write(cfg, db, tx), tx)
  {}

  lemma SwitchWrites(cfg: Config, db: Db, tx: Tx)
    requires (tx.op.Pause? || tx.op.Resume?) && Shape(cfg, tx) && Current(db, tx)
    requires Next(cfg, tx) == CommitNow && OpenCopies(tx)
    ensures Untouched(db, Write(cfg, db, tx), tx) && NothingNew(db, Write(cfg, db, tx), tx)
  {}

  lemma FinishWrites(cfg: Config, db: Db, tx: Tx)
    requires tx.op.Finish? && Shape(cfg, tx) && Current(db, tx)
    requires Next(cfg, tx) == CommitNow && OpenCopies(tx)
    ensures Untouched(db, Write(cfg, db, tx), tx) && NothingNew(db, Write(cfg, db, tx), tx)
  {
    if tx.rides[tx.op.ride].status == Finished {
      RepeatedFinishWrites(cfg, db, tx);
    } else {
      FirstFinishWrites(cfg, db, tx);
    }
  }

  lemma RepeatedFinishWrites(cfg: Config, db: Db, tx: Tx)
    requires tx.op.Finish? && Shape(cfg, tx) && Current(db, tx)
    requires Next(cfg, tx) == CommitNow && OpenCopies(tx) && tx.rides[tx.op.ride].status == Finished
    ensures Untouched(db, Write(cfg, db, tx), tx) && NothingNew(db, Write(cfg, db, tx), tx)
  {}

  lemma FirstFinishWrites(cfg: Config, db: Db, tx: Tx)
    requires tx.op.Finish? && Shape(cfg, tx) && Current(db, tx)
    requires Next(cfg, tx) == CommitNow && OpenCopies(tx) && tx.rides[tx.op.ride].status != Finished
    ensures Untouched(db, Write(cfg, db, tx), tx) && NothingNew(db, Write(cfg, db, tx), tx)
  {}

  lemma EndingReportWrites(cfg: Config, db: Db, tx: Tx)
    requires EndsFound(cfg, tx) && Shape(cfg, tx) && Current(db, tx)
    requires Next(cfg, tx) == CommitNow && OpenCopies(tx)
    ensures Untouched(db, Write(cfg, db, tx), tx) && NothingNew(db, Write(cfg, db, tx), tx)
  {}

  lemma PlainReportWrites(cfg: Config, db: Db, tx: Tx)
    requires tx.op.Telemetry? && !EndsFound(cfg, tx) && Shape(cfg, tx) && Current(db, tx)
    requires Next(cfg, tx) == CommitNow && OpenCopies(tx)
    ensures Untouched(db, Write(cfg, db, tx), tx) && NothingNew(db, Write(cfg, db, tx), tx)
  {}

  lemma CommitWrites(cfg: Config, db: Db, tx: Tx)
    requires Shape(cfg, tx) && Current(db, tx) && Next(cfg, tx) == CommitNow && OpenCopies(tx) && IdsOk(db)
    ensures Untouched(db, Write(cfg, db, tx), tx) && NothingNew(db, Write(cfg, db, tx), tx)
  {
    if tx.op.Create? {
      CreateWrites(cfg, db, tx);
    } else if tx.op.Cancel? {
      CancelWrites(cfg, db, tx);
    } else if tx.op.Sweep? {
      SweepWrites(cfg, db, tx);
    } else if tx.op.Start? {
      StartWrites(cfg, db, tx);
    } else if tx.op.Pause? || tx.op.Resume? {
      SwitchWrites(cfg, db, tx);
    } else if tx.op.Finish? {
      FinishWrites(cfg, db, tx);
    } else if EndsFound(cfg, tx) {
      EndingReportWrites(cfg, db, tx);
    } else {
      PlainReportWrites(cfg, db, tx);
    }
  }

  lemma WarningStays(cfg: Config, db: Db, other: Tx, now: int, quiet: set<nat>)
    requires TxOk(cfg, db, other, quiet)
    requires forall b :: b in DueWarnings(db, now, cfg.warnBefore) ==> !HoldsKey(other, BookingKey(b))
    ensures TxOk(cfg, WarnExpiring(db, now, cfg.warnBefore), other, quiet)
  {
    var after := WarnExpiring(db, now, cfg.warnBefore);
    forall b | b in other.bookings ensures after.bookings[b] == db.bookings[b] {
      assert HoldsKey(other, BookingKey(b));
    }
    assert forall b :: ActiveBooking(after, b) ==> ActiveBooking(db, b);
    assert forall r :: Unfinished(after, r) ==> Unfinished(db, r);
  }

  // ----- whole executions

  /** A transaction moves on, taking only locks nobody else has. */
  lemma MovedOn(cfg: Config, sys: System, t: nat, tx: Tx, quiet: set<nat>)
    requires SystemOk(cfg, sys, quiet) && TxOk(cfg, sys.db, tx, quiet)
    requires forall k :: HoldsKey(tx, k) ==> FreeFor(sys, t, k) || (t in sys.txs && HoldsKey(sys.txs[t], k))
    ensures SystemOk(cfg, sys.(txs := sys.txs[t := tx]), quiet)
  {
    var after := sys.(txs := sys.txs[t := tx]);
    forall u, v, k | u in after.txs && v in after.txs && u != v && HoldsKey(after.txs[u], k)
      ensures !HoldsKey(after.txs[v], k)
    {}
  }

  lemma StepOk(cfg: Config, sys: System, a: Action, quiet: set<nat>)
    requires SystemOk(cfg, sys, quiet) && Enabled(cfg, sys, a)
    requires !a.Commit? && !a.WarnAll? && !a.Begin? && !a.Abort?
    ensures SystemOk(cfg, Apply(cfg, sys, a), quiet)
  {
    var t := a.tx;
    if a.Lock? {
      LockOk(cfg, sys, t, quiet);
    } else if a.Check? {
      CheckKeeps(cfg, sys.db, sys.txs[t], quiet);
      MovedOn(cfg, sys, t, sys.txs[t].(checked := true), quiet);
    } else if a.Look? {
      assert Meets(sys.db, RidesC);
      LookKeeps(cfg, sys.db, sys.txs[t], quiet);
      MovedOn(cfg, sys, t, Looked(sys.db, sys.txs[t]), quiet);
    } else {
      SelectOk(cfg, sys, t, a.order, quiet);
    }
  }

  lemma LockOk(cfg: Config, sys: System, t: nat, quiet: set<nat>)
    requires SystemOk(cfg, sys, quiet) && Enabled(cfg, sys, Lock(t))
    ensures SystemOk(cfg, Apply(cfg, sys, Lock(t)), quiet)
  {
    LockKeeps(cfg, sys.db, sys.txs[t], quiet);
    LockAddsKey(cfg, sys.db, sys.txs[t]);
    MovedOn(cfg, sys, t, Apply(cfg, sys, Lock(t)).txs[t], quiet);
  }

  lemma SelectOk(cfg: Config, sys: System, t: nat, order: seq<nat>, quiet: set<nat>)
    requires SystemOk(cfg, sys, quiet) && Enabled(cfg, sys, Select(t, order))
    ensures SystemOk(cfg, Apply(cfg, sys, Select(t, order)), quiet)
  {
    SelectKeeps(cfg, sys.db, sys.txs[t], order, quiet);
    MovedOn(cfg, sys, t, Apply(cfg, sys, Select(t, order)).txs[t], quiet);
  }

  lemma BeginOk(cfg: Config, sys: System, t: nat, op: Op, quiet: set<nat>)
    requires SystemOk(cfg, sys, quiet) && Enabled(cfg, sys, Begin(t, op))
    ensures SystemOk(cfg, Apply(cfg, sys, Begin(t, op)), quiet)
  {
    NewTxOk(cfg, sys.db, op, quiet);
    MovedOn(cfg, sys, t, NewTx(op), quiet);
  }

  lemma AbortOk(cfg: Config, sys: System, t: nat, quiet: set<nat>)
    requires SystemOk(cfg, sys, quiet) && Enabled(cfg, sys, Abort(t))
    ensures SystemOk(cfg, Apply(cfg, sys, Abort(t)), quiet)
  {}

  /** Does this commit put a new ride on one of the scooters said to be quiet? */
  predicate StartsOnQuiet(cfg: Config, sys: System, a: Action, quiet: set<nat>) {
    a.Commit? && a.tx in sys.txs && exists s :: s in quiet && StartsOn(sys.txs[a.tx], s)
  }

  function SerialOps(cfg: Config, sys: System, a: Action, quiet: set<nat>): seq<Op> {
    match a
    case Commit(t) => if t in sys.txs then [SerialOp(cfg, sys.txs[t], quiet)] else []
    case WarnAll(now) => [Warn(now)]
    case _ => []
  }

  lemma CommitOk(cfg: Config, sys: System, t: nat, quiet: set<nat>)
    requires SystemOk(cfg, sys, quiet) && Enabled(cfg, sys, Commit(t)) && !StartsOnQuiet(cfg, sys, Commit(t), quiet)
    ensures SystemOk(cfg, Apply(cfg, sys, Commit(t)), quiet)
    ensures ForeignKeys(sys.db) && OpenSegments(sys.db)
    ensures Apply(cfg, sys, Commit(t)).db == Step(cfg, sys.db, SerialOp(cfg, sys.txs[t], quiet)).0
    ensures Reply(cfg, sys.db, sys.txs[t]) == Step(cfg, sys.db, SerialOp(cfg, sys.txs[t], quiet)).1
  {
    var tx, after := sys.txs[t], Apply(cfg, sys, Commit(t));
    CommitIsSerial(cfg, sys.db, tx, quiet);
    ReplyIsSerial(cfg, sys.db, tx, quiet);
    StepKeeps(cfg, sys.db, SerialOp(cfg, tx, quiet));
    assert Meets(sys.db, IdsC);
    CommitWrites(cfg, sys.db, tx);
    forall u | u in after.txs ensures TxOk(cfg, after.db, after.txs[u], quiet) {
      OtherStays(cfg, sys.db, after.db, tx, sys.txs[u], quiet);
    }
  }

  lemma WarnOk(cfg: Config, sys: System, now: int, quiet: set<nat>)
    requires SystemOk(cfg, sys, quiet) && Enabled(cfg, sys, WarnAll(now))
    ensures SystemOk(cfg, Apply(cfg, sys, WarnAll(now)), quiet)
    ensures ForeignKeys(sys.db) && OpenSegments(sys.db)
    ensures Apply(cfg, sys, WarnAll(now)).db == Step(cfg, sys.db, Warn(now)).0
  {
    StepKeeps(cfg, sys.db, Warn(now));
    forall u | u in sys.txs
      ensures TxOk(cfg, Apply(cfg, sys, WarnAll(now)).db, sys.txs[u], quiet)
    {
      WarningStays(cfg, sys.db, sys.txs[u], now, quiet);
    }
  }

  /** An execution: any actions, each enabled where it is taken. */
  ghost predicate Executes(cfg: Config, sys: System, acts: seq<Action>, end: System)
    decreases |acts|
  {
    if acts == [] then end == sys
    else Enabled(cfg, sys, acts[0]) && Executes(cfg, Apply(cfg, sys, acts[0]), acts[1..], end)
  }

  ghost predicate QuietThroughout(cfg: Config, sys: System, acts: seq<Action>, quiet: set<nat>)
    decreases |acts|
  {
    acts != [] && Enabled(cfg, sys, acts[0]) ==>
      && !StartsOnQuiet(cfg, sys, acts[0], quiet)
      && QuietThroughout(cfg, Apply(cfg, sys, acts[0]), acts[1..], quiet)
  }

  /** The serial calls of an execution, in the order of its commits. */
  ghost function Log(cfg: Config, sys: System, acts: seq<Action>, quiet: set<nat>): seq<Op>
    decreases |acts|
  {
    if acts == [] || !Enabled(cfg, sys, acts[0]) then []
    else SerialOps(cfg, sys, acts[0], quiet) + Log(cfg, Apply(cfg, sys, acts[0]), acts[1..], quiet)
  }

  ghost function AnswersTo(cfg: Config, sys: System, a: Action): seq<Outcome>
    requires Enabled(cfg, sys, a)
  {
    match a
    case Commit(t) => [Reply(cfg, sys.db, sys.txs[t])]
    case WarnAll(now) => [Swept({}, DueWarnings(sys.db, now, cfg.warnBefore))]
    case _ => []
  }

  /** What the callers of an execution are told, in the order of its commits. */
  ghost function Answers(cfg: Config, sys: System, acts: seq<Action>): seq<Outcome>
    decreases |acts|
  {
    if acts == [] || !Enabled(cfg, sys, acts[0]) then []
    else AnswersTo(cfg, sys, acts[0]) + Answers(cfg, Apply(cfg, sys, acts[0]), acts[1..])
  }

  /** Whatever calls are in flight and however their look-ups, locks, reads, commits and failures
      interleave, the tables end up as if the committed calls had run one after the other in the
      order of their commits, and each caller is told what it would have been told then; and the
      tables are consistent all the way. */
  lemma {:induction false} Serializable(cfg: Config, sys: System, acts: seq<Action>, end: System, quiet: set<nat>)
    requires SystemOk(cfg, sys, quiet) && Executes(cfg, sys, acts, end)
    requires QuietThroughout(cfg, sys, acts, quiet)
    ensures SystemOk(cfg, end, quiet)
    ensures end.db == Run(cfg, sys.db, Log(cfg, sys, acts, quiet))
    ensures Answers(cfg, sys, acts) == Replies(cfg, sys.db, Log(cfg, sys, acts, quiet))
    decreases |acts|
  {
    if acts != [] {
      var a, rest := acts[0], acts[1..];
      var after := Apply(cfg, sys, a);
      Usable(sys.db);
      if a.Commit? {
        CommitOk(cfg, sys, a.tx, quiet);
      } else if a.WarnAll? {
        WarnOk(cfg, sys, a.now, quiet);
      } else if a.Begin? {
        BeginOk(cfg, sys, a.tx, a.op, quiet);
      } else if a.Abort? {
        AbortOk(cfg, sys, a.tx, quiet);
      } else {
        StepOk(cfg, sys, a, quiet);
      }
      Serializable(cfg, after, rest, end, quiet);
      RunAfter(cfg, sys.db, SerialOps(cfg, sys, a, quiet), AnswersTo(cfg, sys, a), after.db,
               Log(cfg, after, rest, quiet));
    }
  }

  lemma {:induction false} NothingQuiet(cfg: Config, sys: System, acts: seq<Action>)
    ensures QuietThroughout(cfg, sys, acts, {})
    decreases |acts|
  {
    if acts != [] && Enabled(cfg, sys, acts[0]) {
      NothingQuiet(cfg, Apply(cfg, sys, acts[0]), acts[1..]);
    }
  }

  /** The same from idle consistent tables, where nothing is known of the scooters: every state an
      execution reaches is one a run of whole calls reaches. */
  lemma SerializableFromIdle(cfg: Config, db: Db, acts: seq<Action>, end: System)
    requires Consistent(db) && Executes(cfg, System(db, map[]), acts, end)
    ensures SystemOk(cfg, end, {})
    ensures end.db == Run(cfg, db, Log(cfg, System(db, map[]), acts, {}))
    ensures Answers(cfg, System(db, map[]), acts) == Replies(cfg, db, Log(cfg, System(db, map[]), acts, {}))
  {
    NothingQuiet(cfg, System(db, map[]), acts);
    Serializable(cfg, System(db, map[]), acts, end, {});
  }

  // ----- a report that misses a ride

  lemma {:induction false} Then(cfg: Config, sys: System, first: seq<Action>, mid: System, rest: seq<Action>,
                                end: System)
    requires Executes(cfg, sys, first, mid) && Executes(cfg, mid, rest, end)
    ensures Executes(cfg, sys, first + rest, end)
    decreases |first|
  {
    if first == [] {
      assert first + rest == rest;
    } else {
      Then(cfg, Apply(cfg, sys, first[0]), first[1..], mid, rest, end);
      assert (first + rest)[1..] == first[1..] + rest;
    }
  }

  lemma One(cfg: Config, sys: System, a: Action, end: System)
    requires Enabled(cfg, sys, a) && Apply(cfg, sys, a) == end
    ensures Executes(cfg, sys, [a], end)
  {
    assert [a][1..] == [];
  }

  /** The system with one transaction put in. */
  function With(sys: System, t: nat, tx: Tx): System { sys.(txs := sys.txs[t := tx]) }

  ghost predicate NobodyHolds(sys: System) { forall u, k :: u in sys.txs ==> !HoldsKey(sys.txs[u], k) }

  lemma LockFree(cfg: Config, sys: System, t: nat, tx: Tx)
    requires NobodyHolds(sys) && t !in sys.txs && Next(cfg, tx).Take? && RowExists(sys.db, Next(cfg, tx).key)
    ensures Executes(cfg, With(sys, t, tx), [Lock(t)], With(sys, t, Locked(sys.db, tx, Next(cfg, tx).key)))
  {
    One(cfg, With(sys, t, tx), Lock(t), With(sys, t, Locked(sys.db, tx, Next(cfg, tx).key)));
  }

  /** A start from an active booking, with its user's and its booking's lock. */
  function StartTx(db: Db, b: nat, now: int): Tx
    requires b in db.bookings
  {
    NewTx(Start(db.bookings[b].user, b, now)).(userLocked := true, bookings := map[b := db.bookings[b]])
  }

  lemma StartLocks(cfg: Config, sys: System, t: nat, b: nat, now: int)
    requires NobodyHolds(sys) && t !in sys.txs && b in sys.db.bookings
    ensures Executes(cfg, sys, [Begin(t, Start(sys.db.bookings[b].user, b, now)), Lock(t), Lock(t)],
                     With(sys, t, StartTx(sys.db, b, now)))
  {
    var begun := NewTx(Start(sys.db.bookings[b].user, b, now));
    var user, row := begun.(userLocked := true), StartTx(sys.db, b, now);
    One(cfg, sys, Begin(t, begun.op), With(sys, t, begun));
    LockFree(cfg, sys, t, begun);
    LockFree(cfg, sys, t, user);
    Then(cfg, sys, [Begin(t, begun.op)], With(sys, t, begun), [Lock(t)], With(sys, t, user));
    Then(cfg, sys, [Begin(t, begun.op)] + [Lock(t)], With(sys, t, user), [Lock(t)], With(sys, t, row));
    assert [Begin(t, begun.op)] + [Lock(t)] + [Lock(t)] == [Begin(t, begun.op), Lock(t), Lock(t)];
  }

  lemma StartChecks(cfg: Config, sys: System, t: nat, b: nat, now: int)
    requires Consistent(sys.db) && NobodyHolds(sys) && t !in sys.txs
    requires ActiveBooking(sys.db, b) && now < sys.db.bookings[b].expiresAt
    ensures var s, row := sys.db.bookings[b].scooter, StartTx(sys.db, b, now);
      && s in sys.db.scooters
      && Executes(cfg, With(sys, t, row), [Check(t), Lock(t)],
                  With(sys, t, row.(checked := true, scooters := map[s := sys.db.scooters[s]])))
  {
    ActiveBookingIsReady(sys.db, b);
    var s, row := sys.db.bookings[b].scooter, StartTx(sys.db, b, now);
    var checked := row.(checked := true);
    var all := checked.(scooters := map[s := sys.db.scooters[s]]);
    One(cfg, With(sys, t, row), Check(t), With(sys, t, checked));
    LockFree(cfg, sys, t, checked);
    Then(cfg, With(sys, t, row), [Check(t)], With(sys, t, checked), [Lock(t)], With(sys, t, all));
    assert [Check(t)] + [Lock(t)] == [Check(t), Lock(t)];
  }

  lemma StartCommits(cfg: Config, sys: System, t: nat, b: nat, now: int, tx: Tx, started: Db)
    requires Consistent(sys.db) && ForeignKeys(sys.db) && t !in sys.txs
    requires ActiveBooking(sys.db, b) && now < sys.db.bookings[b].expiresAt
    requires var s := sys.db.bookings[b].scooter;
      && sys.db.scooters[s].battery >= cfg.lowBattery
      && tx == StartTx(sys.db, b, now).(checked := true, scooters := map[s := sys.db.scooters[s]])
    requires started == StartRide(sys.db, tx.op.user, b, cfg.rideRate, cfg.pauseRate, now, cfg.lowBattery).0
    ensures Executes(cfg, With(sys, t, tx), [Commit(t)], sys.(db := started))
  {
    ActiveBookingIsReady(sys.db, b);
    Usable(sys.db);
    StartIsSerial(cfg, sys.db, tx);
    assert (sys.txs[t := tx]) - {t} == sys.txs;
    One(cfg, With(sys, t, tx), Commit(t), sys.(db := started));
  }

  function StartActs(user: nat, t: nat, b: nat, now: int): seq<Action> {
    [Begin(t, Start(user, b, now)), Lock(t), Lock(t)] + [Check(t), Lock(t)] + [Commit(t)]
  }

  /** A start by itself, among transactions that hold no lock, runs through. */
  lemma StartRuns(cfg: Config, sys: System, t: nat, b: nat, now: int, started: Db)
    requires Consistent(sys.db) && ForeignKeys(sys.db) && NobodyHolds(sys) && t !in sys.txs
    requires ActiveBooking(sys.db, b) && now < sys.db.bookings[b].expiresAt
    requires sys.db.scooters[sys.db.bookings[b].scooter].battery >= cfg.lowBattery
    requires started == StartRide(sys.db, sys.db.bookings[b].user, b, cfg.rideRate, cfg.pauseRate, now,
                                  cfg.lowBattery).0
    ensures Executes(cfg, sys, StartActs(sys.db.bookings[b].user, t, b, now), sys.(db := started))
  {
    var user, s, row := sys.db.bookings[b].user, sys.db.bookings[b].scooter, StartTx(sys.db, b, now);
    var all := row.(checked := true, scooters := map[s := sys.db.scooters[s]]);
    var locks := [Begin(t, Start(user, b, now)), Lock(t), Lock(t)];
    StartLocks(cfg, sys, t, b, now);
    StartChecks(cfg, sys, t, b, now);
    StartCommits(cfg, sys, t, b, now, all, started);
    Then(cfg, sys, locks, With(sys, t, row), [Check(t), Lock(t)], With(sys, t, all));
    Then(cfg, sys, locks + [Check(t), Lock(t)], With(sys, t, all), [Commit(t)], sys.(db := started));
  }

  /** The window of a report is real: from any tables with an active booking on a charged scooter,
      a report below the threshold looks for a ride, a start runs through, and the report is
      recorded. The ride goes on below the threshold, and all calls are done. */
  lemma ReportCanMissRide(cfg: Config, db: Db, b: nat, report: Op, now: int) returns (acts: seq<Action>, end: System)
    requires Consistent(db) && ForeignKeys(db) && ActiveBooking(db, b) && now < db.bookings[b].expiresAt
    requires db.scooters[db.bookings[b].scooter].battery >= cfg.lowBattery
    requires report.Telemetry? && report.scooter == db.bookings[b].scooter
    requires report.battery < cfg.autoFinishBattery
    ensures Executes(cfg, System(db, map[]), acts, end) && end.txs == map[]
    ensures RideOn(end.db, db.nextRide, report.scooter)
    ensures report.scooter in end.db.scooters && end.db.scooters[report.scooter].battery < cfg.autoFinishBattery
  {
    var idle, begun := System(db, map[]), NewTx(report);
    var looked := begun.(lookUp := NoRide);
    var started := StartRide(db, db.bookings[b].user, b, cfg.rideRate, cfg.pauseRate, now, cfg.lowBattery).0;
    NoRideOnBooked(db, b);
    One(cfg, idle, Begin(0, report), With(idle, 0, begun));
    One(cfg, With(idle, 0, begun), Look(0), With(idle, 0, looked));
    StartRuns(cfg, With(idle, 0, looked), 1, b, now, started);
    StartIsOn(cfg, db, b, now);
    end := ReportRuns(cfg, started, looked);
    var first, start, rest := [Begin(0, report)], StartActs(db.bookings[b].user, 1, b, now), [Lock(0), Commit(0)];
    Then(cfg, idle, first, With(idle, 0, begun), [Look(0)], With(idle, 0, looked));
    Then(cfg, idle, first + [Look(0)], With(idle, 0, looked), start, With(System(started, map[]), 0, looked));
    acts := first + [Look(0)] + start + rest;
    Then(cfg, idle, first + [Look(0)] + start, With(System(started, map[]), 0, looked), rest, end);
  }

  lemma NoRideOnBooked(db: Db, b: nat)
    requires Consistent(db) && ActiveBooking(db, b)
    ensures UnfinishedRideOn(db, db.bookings[b].scooter) == None
  {
    Unfold(db);
    ActiveBookingIsReady(db, b);
    assert ScooterOk(db, db.bookings[b].scooter);
  }

  lemma StartIsOn(cfg: Config, db: Db, b: nat, now: int)
    requires Consistent(db) && ForeignKeys(db) && ActiveBooking(db, b) && now < db.bookings[b].expiresAt
    requires db.scooters[db.bookings[b].scooter].battery >= cfg.lowBattery
    ensures var started := StartRide(db, db.bookings[b].user, b, cfg.rideRate, cfg.pauseRate, now, cfg.lowBattery).0;
      RideOn(started, db.nextRide, db.bookings[b].scooter) && db.bookings[b].scooter in started.scooters
  {
    ActiveBookingIsReady(db, b);
    StartKeeps(cfg, db, db.bookings[b].user, b, now);
  }

  lemma ReportRuns(cfg: Config, db: Db, looked: Tx) returns (end: System)
    requires looked.op.Telemetry? && looked == NewTx(looked.op).(lookUp := NoRide)
    requires looked.op.scooter in db.scooters && looked.op.battery < cfg.autoFinishBattery
    ensures Executes(cfg, With(System(db, map[]), 0, looked), [Lock(0), Commit(0)], end)
    ensures end.txs == map[] && end.db.rides == db.rides
    ensures looked.op.scooter in end.db.scooters && end.db.scooters[looked.op.scooter].battery == looked.op.battery
  {
    var idle, s := System(db, map[]), looked.op.scooter;
    var held := looked.(scooters := map[s := db.scooters[s]]);
    end := System(Write(cfg, db, held), map[]);
    LockFree(cfg, idle, 0, looked);
    assert (idle.txs[0 := held]) - {0} == map[];
    One(cfg, With(idle, 0, held), Commit(0), end);
    Then(cfg, With(idle, 0, looked), [Lock(0)], With(idle, 0, held), [Commit(0)], end);
    assert [Lock(0)] + [Commit(0)] == [Lock(0), Commit(0)];
  }

  /** One serial call, or none, before a run. */
  lemma RunAfter(cfg: Config, db: Db, first: seq<Op>, told: seq<Outcome>, after: Db, rest: seq<Op>)
    requires Consistent(db) && Consistent(after) && ForeignKeys(db) && OpenSegments(db) && |first| <= 1
    requires after == if first == [] then db else Step(cfg, db, first[0]).0
    requires told == if first == [] then [] else [Step(cfg, db, first[0]).1]
    ensures Run(cfg, db, first + rest) == Run(cfg, after, rest)
    ensures Replies(cfg, db, first + rest) == told + Replies(cfg, after, rest)
  {
    if first == [] {
      assert first + rest == rest;
    } else {
      assert (first + rest)[1..] == rest;
    }
  }
}
