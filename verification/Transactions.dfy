/** The calls as transactions that interleave: look-ups without a lock, SELECT FOR UPDATE row by
    row, writes at commit. A transaction's copy of a row is what it read when it got the lock. */
module Transactions {
  import opened Options
  import opened Timeline
  import opened Tables
  import opened Services
  import opened Consistency
  import opened History

  datatype Key = UserKey(user: nat) | BookingKey(booking: nat) | RideKey(ride: nat) | ScooterKey(scooter: nat)

  datatype LookUp = NotLooked | NoRide | FoundRide(ride: nat)

  /** A call under way. `order` is what the sweeper's query returned, once it has run. */
  datatype Tx = Tx(op: Op, userLocked: bool, bookings: map<nat, Booking>, rides: map<nat, Ride>,
                   scooters: map<nat, Scooter>, checked: bool, lookUp: LookUp, order: Option<seq<nat>>)

  datatype System = System(db: Db, txs: map<nat, Tx>)

  /** The calls there are; the sweeper's is its expiry query and what follows. */
  predicate IsCall(op: Op) { !op.Expire? && !op.Warn? && !op.Report? }

  function NewTx(op: Op): Tx { Tx(op, false, map[], map[], map[], false, NotLooked, None) }

  predicate HoldsKey(tx: Tx, k: Key) {
    match k
    case UserKey(u) => tx.userLocked && (tx.op.Create? || tx.op.Start?) && tx.op.user == u
    case BookingKey(b) => b in tx.bookings
    case RideKey(r) => r in tx.rides
    case ScooterKey(s) => s in tx.scooters
  }

  // ----- what a transaction does next, decided by what it has read

  datatype Move = Take(key: Key) | CheckUser | LookForRide | SelectOverdue | CommitNow | Refuse

  /** The sweeper frees the scooters of its bookings one after the other. */
  function NextScooter(tx: Tx, order: seq<nat>, i: nat): Option<nat>
    requires i <= |order|
    decreases |order| - i
  {
    if i == |order| then None
    else if order[i] in tx.bookings && tx.bookings[order[i]].scooter !in tx.scooters then
      Some(tx.bookings[order[i]].scooter)
    else NextScooter(tx, order, i + 1)
  }

  function TakeScooter(tx: Tx, s: nat): Move {
    if s !in tx.scooters then Take(ScooterKey(s)) else CommitNow
  }

  function NextOfCreate(tx: Tx): Move
    requires tx.op.Create?
  {
    if !tx.userLocked then Take(UserKey(tx.op.user))
    else if tx.op.scooter !in tx.scooters then Take(ScooterKey(tx.op.scooter))
    else if tx.scooters[tx.op.scooter].status != Available then Refuse
    else if !tx.checked then CheckUser
    else CommitNow
  }

  function NextOfCancel(tx: Tx): Move
    requires tx.op.Cancel?
  {
    var b := tx.op.booking;
    if b !in tx.bookings then Take(BookingKey(b))
    else if tx.bookings[b].user != tx.op.user || tx.bookings[b].status != Holding then Refuse
    else TakeScooter(tx, tx.bookings[b].scooter)
  }

  function NextOfSweep(tx: Tx): Move
    requires tx.op.Sweep?
  {
    if tx.order.None? then SelectOverdue
    else
      var s := NextScooter(tx, tx.order.value, 0);
      if s.Some? then Take(ScooterKey(s.value)) else CommitNow
  }

  function NextOfStart(cfg: Config, tx: Tx): Move
    requires tx.op.Start?
  {
    var b := tx.op.booking;
    if !tx.userLocked then Take(UserKey(tx.op.user))
    else if b !in tx.bookings then Take(BookingKey(b))
    else if tx.bookings[b].user != tx.op.user || tx.bookings[b].status != Holding
         || tx.bookings[b].expiresAt <= tx.op.now then Refuse
    else if !tx.checked then CheckUser
    else if tx.bookings[b].scooter !in tx.scooters then Take(ScooterKey(tx.bookings[b].scooter))
    else
      var scooter := tx.scooters[tx.bookings[b].scooter];
      if scooter.status != Reserved || scooter.battery < cfg.lowBattery then Refuse else CommitNow
  }

  function NextOfSwitch(tx: Tx, status: RideStatus): Move
    requires tx.op.Pause? || tx.op.Resume?
  {
    var r := tx.op.ride;
    if r !in tx.rides then Take(RideKey(r))
    else if tx.rides[r].user != tx.op.user || tx.rides[r].status == Finished || tx.rides[r].status == status
    then Refuse
    else TakeScooter(tx, tx.rides[r].scooter)
  }

  function NextOfFinish(cfg: Config, tx: Tx): Move
    requires tx.op.Finish?
  {
    var r := tx.op.ride;
    if r !in tx.rides then Take(RideKey(r))
    else if tx.rides[r].user != tx.op.user then Refuse
    else if tx.rides[r].status == Finished then CommitNow
    else if tx.rides[r].scooter !in tx.scooters then Take(ScooterKey(tx.rides[r].scooter))
    else if !InService(cfg.zones, tx.scooters[tx.rides[r].scooter].position) then Refuse
    else CommitNow
  }

  function NextOfTelemetry(cfg: Config, tx: Tx): Move
    requires tx.op.Telemetry?
  {
    if tx.op.battery >= cfg.autoFinishBattery then TakeScooter(tx, tx.op.scooter)
    else match tx.lookUp
      case NotLooked => LookForRide
      case NoRide => TakeScooter(tx, tx.op.scooter)
      case FoundRide(r) =>
        if r !in tx.rides then Take(RideKey(r))
        else if tx.rides[r].status == Finished then TakeScooter(tx, tx.op.scooter)
        else TakeScooter(tx, tx.rides[r].scooter)
  }

  function Next(cfg: Config, tx: Tx): Move {
    match tx.op
    case Create(_, _, _, _) => NextOfCreate(tx)
    case Cancel(_, _, _) => NextOfCancel(tx)
    case Sweep(_) => NextOfSweep(tx)
    case Start(_, _, _) => NextOfStart(cfg, tx)
    case Pause(_, _, _) => NextOfSwitch(tx, Paused)
    case Resume(_, _, _) => NextOfSwitch(tx, Active)
    case Finish(_, _, _, _) => NextOfFinish(cfg, tx)
    case Telemetry(_, _, _, _, _) => NextOfTelemetry(cfg, tx)
    case Expire(_, _) => Refuse
    case Warn(_) => Refuse
    case Report(_, _, _) => Refuse
  }

  // ----- what it writes at commit, from its own copies

  /** Does this report end the ride it found? */
  predicate EndsFound(cfg: Config, tx: Tx) {
    && tx.op.Telemetry? && tx.op.battery < cfg.autoFinishBattery && tx.lookUp.FoundRide?
    && tx.lookUp.ride in tx.rides && tx.rides[tx.lookUp.ride].status != Finished
  }

  predicate OpenCopies(tx: Tx) {
    forall r :: r in tx.rides && tx.rides[r].status != Finished ==> HasOpenSegment(tx.rides[r])
  }

  function Write(cfg: Config, db: Db, tx: Tx): Db
    requires Next(cfg, tx) == CommitNow && OpenCopies(tx)
  {
    match tx.op
    case Create(user, s, createdAt, now) =>
      db.(bookings := db.bookings[db.nextBooking := Booking(user, s, Holding, createdAt, now + cfg.ttl, None, None)],
          scooters := db.scooters[s := tx.scooters[s].(status := Reserved)],
          nextBooking := db.nextBooking + 1)
    case Cancel(_, b, now) =>
      var s := tx.bookings[b].scooter;
      db.(bookings := db.bookings[b := EndedRow(tx.bookings[b], Cancelled, now)],
          scooters := db.scooters[s := ReleasedRow(tx.scooters[s], cfg.lowBattery)])
    case Sweep(now) =>
      db.(bookings := db.bookings + map b | b in tx.bookings :: EndedRow(tx.bookings[b], Expired, now),
          scooters := db.scooters + map s | s in tx.scooters :: ReleasedRow(tx.scooters[s], cfg.lowBattery))
    case Start(user, b, now) =>
      var s := tx.bookings[b].scooter;
      db.(rides := db.rides[db.nextRide := Started(user, s, b, cfg.rideRate, cfg.pauseRate, now, db.nextSegment)],
          bookings := db.bookings[b := tx.bookings[b].(status := Used)],
          scooters := db.scooters[s := tx.scooters[s].(status := Riding)],
          nextRide := db.nextRide + 1, nextSegment := db.nextSegment + 1)
    case Pause(_, r, now) =>
      var s := tx.rides[r].scooter;
      db.(rides := db.rides[r := Switched(tx.rides[r], Paused, now, db.nextSegment)],
          scooters := db.scooters[s := tx.scooters[s].(paused := true)],
          nextSegment := db.nextSegment + 1)
    case Resume(_, r, now) =>
      var s := tx.rides[r].scooter;
      db.(rides := db.rides[r := Switched(tx.rides[r], Active, now, db.nextSegment)],
          scooters := db.scooters[s := tx.scooters[s].(paused := false)],
          nextSegment := db.nextSegment + 1)
    case Finish(_, r, now, mailOk) =>
      if tx.rides[r].status == Finished then StoreReceipt(db, r, mailOk).0
      else
        var s := tx.rides[r].scooter;
        var release := ReleaseStatus(tx.scooters[s].battery, cfg.lowBattery);
        var settled := db.(rides := db.rides[r := Settled(tx.rides[r], now, ByUser)],
                           scooters := db.scooters[s := tx.scooters[s].(status := release, paused := false)]);
        StoreReceipt(settled, r, mailOk).0
    case Telemetry(s, position, battery, now, mailOk) =>
      if EndsFound(cfg, tx) then
        var r := tx.lookUp.ride;
        var ridden := tx.rides[r].scooter;
        var scooter := tx.scooters[ridden].(position := position, battery := battery,
                                            status := Unavailable, paused := false);
        var settled := db.(rides := db.rides[r := Settled(Marked(tx.rides[r], battery, cfg.autoFinishBattery),
                                                          now, ByBattery)],
                           scooters := db.scooters[ridden := scooter]);
        StoreReceipt(settled, r, mailOk).0
      else
        db.(scooters := db.scooters[s := ReportedRow(tx.scooters[s], position, battery, cfg.lowBattery)])
  }

  /** What the caller is told once the commit is done, from the same copies. */
  function Reply(cfg: Config, db: Db, tx: Tx): Outcome
    requires Next(cfg, tx) == CommitNow && OpenCopies(tx)
  {
    match tx.op
    case Create(_, _, _, _) => BookingMade(db.nextBooking)
    case Cancel(_, b, _) => BookingGone(b)
    case Sweep(_) => Swept(tx.bookings.Keys, {})
    case Start(_, _, _) => RideStarted(db.nextRide, true)
    case Pause(_, r, _) => RideSwitched(r)
    case Resume(_, r, _) => RideSwitched(r)
    case Finish(_, r, _, mailOk) => RideDone(r, tx.rides[r].status != Finished, StoreReceipt(db, r, mailOk).1)
    case Telemetry(s, _, _, _, mailOk) =>
      if EndsFound(cfg, tx) then RideDone(tx.lookUp.ride, true, StoreReceipt(db, tx.lookUp.ride, mailOk).1)
      else Recorded(s)
  }

  // ----- steps

  datatype Action =
    | Begin(tx: nat, op: Op)
    | Lock(tx: nat)
    | Check(tx: nat)
    | Look(tx: nat)
    /** SKIP LOCKED: whichever overdue bookings nobody holds, in whatever order */
    | Select(tx: nat, order: seq<nat>)
    | Commit(tx: nat)
    /** a refusal, an early return, a lost connection: nothing is written */
    | Abort(tx: nat)
    /** the one UPDATE of `_warn_expiring`, taken as a single step */
    | WarnAll(now: int)

  predicate FreeFor(sys: System, t: nat, k: Key) {
    forall u :: u in sys.txs && u != t ==> !HoldsKey(sys.txs[u], k)
  }

  predicate RowExists(db: Db, k: Key) {
    match k
    case UserKey(_) => true
    case BookingKey(b) => b in db.bookings
    case RideKey(r) => r in db.rides
    case ScooterKey(s) => s in db.scooters
  }

  predicate CheckPasses(db: Db, op: Op) {
    || (op.Create? && !HasBooking(db, op.user) && !HasRide(db, op.user))
    || (op.Start? && !HasRide(db, op.user))
  }

  predicate Distinct(order: seq<nat>) { forall i, j :: 0 <= i < j < |order| ==> order[i] != order[j] }

  ghost predicate Enabled(cfg: Config, sys: System, a: Action) {
    match a
    case Begin(t, op) => t !in sys.txs && IsCall(op)
    case Lock(t) =>
      && t in sys.txs && Next(cfg, sys.txs[t]).Take?
      && var k := Next(cfg, sys.txs[t]).key; FreeFor(sys, t, k) && RowExists(sys.db, k)
    case Check(t) => t in sys.txs && Next(cfg, sys.txs[t]) == CheckUser && CheckPasses(sys.db, sys.txs[t].op)
    case Look(t) => t in sys.txs && Next(cfg, sys.txs[t]) == LookForRide
    case Select(t, order) =>
      && t in sys.txs && Next(cfg, sys.txs[t]) == SelectOverdue && Distinct(order)
      && forall b :: b in order ==>
           b in OverdueBookings(sys.db, sys.txs[t].op.now) && FreeFor(sys, t, BookingKey(b))
    case Commit(t) => t in sys.txs && Next(cfg, sys.txs[t]) == CommitNow && OpenCopies(sys.txs[t])
    case Abort(t) => t in sys.txs
    case WarnAll(now) =>
      forall t, b :: t in sys.txs && b in DueWarnings(sys.db, now, cfg.warnBefore) ==>
        !HoldsKey(sys.txs[t], BookingKey(b))
  }

  function Locked(db: Db, tx: Tx, k: Key): Tx
    requires RowExists(db, k)
  {
    match k
    case UserKey(_) => tx.(userLocked := true)
    case BookingKey(b) => tx.(bookings := tx.bookings[b := db.bookings[b]])
    case RideKey(r) => tx.(rides := tx.rides[r := db.rides[r]])
    case ScooterKey(s) => tx.(scooters := tx.scooters[s := db.scooters[s]])
  }

  ghost function Looked(db: Db, tx: Tx): Tx
    requires tx.op.Telemetry?
  {
    var found := UnfinishedRideOn(db, tx.op.scooter);
    tx.(lookUp := if found.Some? then FoundRide(found.value) else NoRide)
  }

  ghost function Apply(cfg: Config, sys: System, a: Action): System
    requires Enabled(cfg, sys, a)
  {
    match a
    case Begin(t, op) => sys.(txs := sys.txs[t := NewTx(op)])
    case Lock(t) => sys.(txs := sys.txs[t := Locked(sys.db, sys.txs[t], Next(cfg, sys.txs[t]).key)])
    case Check(t) => sys.(txs := sys.txs[t := sys.txs[t].(checked := true)])
    case Look(t) => sys.(txs := sys.txs[t := Looked(sys.db, sys.txs[t])])
    case Select(t, order) =>
      sys.(txs := sys.txs[t := sys.txs[t].(order := Some(order),
                                           bookings := map b | b in order :: sys.db.bookings[b])])
    case Commit(t) => System(Write(cfg, sys.db, sys.txs[t]), sys.txs - {t})
    case Abort(t) => sys.(txs := sys.txs - {t})
    case WarnAll(now) => sys.(db := WarnExpiring(sys.db, now, cfg.warnBefore))
  }
}
