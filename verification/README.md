# Scooter rental: a verified model

This project models the logic of a scooter-rental system and proves what that logic promises. The
system has three parts that depend on one another: a backend whose services share five tables
(scooters, bookings, rides, segments, e-mails), a simulator that plays the scooters, and a browser
client that mirrors the backend's billing and merges its live updates.

The main results:

- **The shared tables.** Every service call, in any order, with any clocks and any failed inserts,
  keeps the global invariant that none of them states: a scooter is reserved iff exactly one active
  booking holds it, riding iff exactly one unfinished ride is on it, paused iff that ride is; a user
  has at most one active booking or unfinished ride in all; a used booking has exactly one ride.
- **What every call answers.** Exactly when each call refuses, and what it makes of every booking, ride,
  scooter and receipt: only a row's user and the system's own duties change it. Over runs, behind every
  booking and ride stands the call that made it, every ride began before its booking's expiry, and a
  scooter's whole row follows from its last report and the rows that hold it.
- **Races.** The same calls as transactions that look up, lock row by row, re-read and commit:
  every interleaving ends as the committed calls would one after the other in commit order, and tells
  its callers the same; a call gives up only where it would change nothing, and every run of whole
  calls is an execution. No state deadlocks on the explicit row locks, and at most one call ends a ride
  and stores its receipt.
- **Billing.** The timeline of segments under arbitrary clocks, the conservation of seconds, the
  bound on rounding drift, and how far the client's running display can be from the bill.
- **Service zones.** Even-odd ray casting is well defined; two points of one longitude differ exactly by
  the parity of the edges between them, and a convex zone holds exactly what is on one side of all its
  edges. Whatever the simulator calls inside the backend calls inside, and so a simulated rider who has
  been inside a zone, and whose scooter reported since, can always finish.
- **The sweeper's timing, the fleet's invariant and the laws of its ticks, the client's merges and its
  money texts.**

The files, in the order in which they build on each other:

| file | what it holds |
|---|---|
| `Options.dfy`, `Billing.dfy`, `Timeline.dfy`, `Money.dfy` | integer billing, the segments of a ride, money as text |
| `Geo.dfy`, `ConvexZones.dfy` | point in polygon, as the backend and as the simulator decide it, and what it means |
| `Tables.dfy`, `Services.dfy` | the rows, and each service call as one function of the tables |
| `Consistency.dfy`, `History.dfy` | the global invariant, and runs of calls |
| `Outcomes.dfy`, `Repeats.dfy`, `SweepTiming.dfy` | what callers are told over whole runs, repeats, the sweeper's promises |
| `Calls.dfy`, `Provenance.dfy` | what each call answers and changes, exactly, and what every reachable row goes back to |
| `Transactions.dfy`, `Interleaving.dfy`, `Completeness.dfy`, `LockOrder.dfy` | calls as interleaved lock steps, serializability in both directions, deadlock freedom |
| `Backend.dfy` | the services as methods that change rows in place, each proved to be its step |
| `LiveEstimate.dfy`, `ScooterStore.dfy`, `Mailbox.dfy` | the client |
| `Simulation.dfy`, `FleetRuns.dfy`, `FleetLaws.dfy`, `Simulator.dfy` | one simulated scooter, whole runs of the fleet, what they amount to, the fleet as objects |
| `RiderReports.dfy` | the fleet's runs and the backend's together |

Where a property one would expect does not hold on all inputs, the code is modelled as it is and
the exact condition is proved:

- The server carries the fraction of a second into the open segment and the client does not, so the
  display should never run ahead of the bill. But `Date.parse` keeps whole milliseconds while the
  server stores microseconds, so it can, by one second. `LiveEstimate.ClientNeverAhead` says exactly
  when for the seconds and `LiveEstimate.TotalNeverAbove` for the money, `LiveEstimate.NeverPausedExactly`
  when the display of a ride never paused is exact in both, and `LiveEstimate.DisplayCanBeAhead` gives
  a ride.
- Starting a polygon's list, open or closed, at another vertex keeps the backend's answer except for
  one degenerate family: `Geo.Rotated` is exact, `Geo.RotationCanMatter` shows the family is real.
- A telemetry report below the threshold whose look-up found no ride is committed as a bare report.
  It equals the whole report iff there is no ride on the scooter at commit:
  `Interleaving.PlainReportIsSerial`; `Interleaving.ReportCanMissRide` is an execution where it does not.
- The client's map should keep each scooter's latest row in whatever order rows come. It compares
  whole milliseconds of times the server gives in microseconds. `ScooterStore.LatestStaysExactly` says
  exactly when the latest row stays, `ScooterStore.OneStoreExactly` when the order does not tell, and
  `ScooterStore.OlderRowCanStay` gives two rows.
- `Math.round` and ROUND_HALF_UP agree except on ties below zero: `Billing.RoundingIsRobust`. No
  tariff is negative.

## Model

| member | source | states |
|---|---|---|
| Billing.HalfUpSixtieths | backend/app/billing.py:46-47 | The rounded amount is the nearest whole kopeck, and a tie goes away from zero; the contract leaves one value |
| Billing.DurationSeconds | backend/app/billing.py:50-54 | Whole seconds: the elapsed time lies in [s, s+1) seconds |
| Billing.Bill | backend/app/billing.py:57-74 | The loop's four totals are the sums over the segments of each kind, and the total is the sum of the lines |
| Billing.CostBound | backend/app/billing.py:3-5 | For any k segments of one kind, 60 times the cost differs from rate times seconds by at most 30k |
| Billing.CostOfOneMoreSecond | backend/app/billing.py:40-47 | One second more never costs less, and at most a rounded-up sixtieth of the rate more |
| Billing.RoundingIsRobust | frontend/src/ride/billing.ts:5-8 | Any quotient exact on ties and otherwise off by less than 1/60 kopeck rounds as the exact one, on both sides; the sides agree iff it is no tie below zero |
| Timeline.ClosingKeepsChain | backend/app/services/rides.py:128-149 | Closing at any clock keeps the chain of segments; it takes effect at the clock or at the segment's start, whichever is later |
| Timeline.SwitchedOk | backend/app/services/rides.py:276-303 | Pause and resume keep the timeline: alternating kinds, each segment ending where the next begins, only the last open and of the kind of the status |
| Timeline.SettledOk | backend/app/services/rides.py:179-198 | Settling leaves every segment closed and a receipt billed from exactly those segments |
| Timeline.LoadOrderIsAppendOrder | backend/app/models/ride.py:101-106 | Loaded by (started_at, id), the segments come back as they were appended, also when several start at one instant; the last is the open one |
| Timeline.SecondsTelescope | backend/app/services/rides.py:142-147 | The seconds of closed segments add up to the whole seconds since the ride started |
| Timeline.ReceiptIsSound | backend/app/services/rides.py:179-194 | A finished ride: seconds of both kinds sum to the whole duration, each line is the sum of the stored costs, the total the sum of the lines, and each line within half a kopeck a segment of exact |
| Money.ParseOfFormat | frontend/src/ride/billing.ts:21-36 | Reading back what was written gives the amount, for every integer number of kopecks |
| Money.FormatOfParse | frontend/src/ride/billing.ts:21-36 | Writing what was read gives back every canonical two-decimal text |
| Geo.PointInPolygon | backend/app/geo.py:36-54 | The loop answers the boundary band or an odd number of crossings of the ring, False below three vertices |
| Geo.SimPointInPolygon | simulator/scootersim/geo.py:75-91 | The loop answers an odd number of crossings of the list as given |
| Geo.EitherRayAnswers | backend/app/geo.py:44-54 | Any ring straddles the ray's longitude an even number of times, so off the boundary casting towards +lat or -lat answers the same |
| Geo.Reversed | backend/app/geo.py:36-54 | The answer does not depend on the direction of the list |
| Geo.ClosedOrOpen | backend/app/geo.py:37-40 | An open list and the same list closed give one answer |
| Geo.Rotated | backend/app/geo.py:36-54 | For every list, open or closed: starting at another vertex keeps the answer iff the point is off the boundary band or the two starts both collapse to two vertices or both do not |
| Geo.RotationCanMatter | backend/app/geo.py:39-42 | Concrete lists of that family, one open and one closed, on which the answers differ |
| Geo.EdgePointsAreInside | backend/app/geo.py:18-33 | Every exact point of every edge of a ring of at least three vertices is inside |
| Geo.InsideMeansInBox | backend/app/geo.py:36-54 | Inside implies within the vertices' bounds on all four sides |
| Geo.SimInsideIsInside | simulator/scootersim/geo.py:75-91 | For every list, open, closed or degenerate: inside for the simulator is inside for the backend, and off the boundary band they agree |
| ConvexZones.CrossingLaw | backend/app/geo.py:44-54 | Two points of one longitude off the boundary band get one answer iff an even number of edges passes between them |
| ConvexZones.InsideMeansInHalfPlane | backend/app/geo.py:36-54 | Off the boundary band, inside implies in every half-plane that holds all vertices |
| ConvexZones.ConvexZoneExactly | backend/app/geo.py:36-54 | Strictly on one and the same side of all edges of a convex zone, walked either way, open or closed: inside for both programs; off the band nothing else is |
| ConvexZones.TwiceRoundIsEven | backend/app/geo.py:44-54 | A ring walked round twice has an even count everywhere: convexity is needed |
| ConvexZones.BandExactly | backend/app/geo.py:18-33 | A point is on the boundary iff between the ends of some edge and within the tolerance of its line |
| Simulation.CornersHoldTheBox | simulator/scootersim/geo.py:65-72 | What lies strictly in a box is inside the polygon of its corners, for both programs |
| Consistency.OnlyRideOn | backend/app/services/rides.py:358-366 | The look-up of an unfinished ride by scooter has at most one answer |
| Consistency.WithRideKeeps | backend/app/services/rides.py:254-265 | Inserting the ride, using the booking and taking the scooter keep the invariant, and no unique index is violated |
| Consistency.EndBookingsKeeps | backend/app/services/booking_sweeper.py:50-61 | Ending any set of active bookings and freeing their scooters keeps the invariant |
| Consistency.WithSettledKeeps | backend/app/services/rides.py:179-198 | Settling overwrites the scooter's status unchecked and still keeps the invariant |
| History.ActiveBookingIsReady | backend/app/services/rides.py:240-247 | Of an active booking the scooter is reserved and the user rides nothing: two checks of start_ride never refuse |
| History.StepKeeps | backend/app/services/rides.py:209-273 | Every call keeps the invariant and none is ever caught by a unique index; start_ride's user_has_active_ride and scooter_not_available are unreachable |
| History.ExactlyOne | backend/app/services/bookings.py:42-89 | After any run from the seeded fleet: reserved iff exactly one active booking, riding iff exactly one unfinished ride, paused iff that ride is, used iff exactly one ride of the same user and scooter came from the booking, one of either for a user in all |
| History.EveryRide | backend/app/services/rides.py:122-198 | After any run with any clocks every ride's timeline is whole; of a finished one the seconds sum to its duration and the total is the sum of the stored segment costs |
| Outcomes.StepTold | backend/app/services/rides.py:306-349 | The outcome of every call says exactly which ride it ended and which receipt it stored; ride rows keep identity, start, tariff and closed segments, finished rows change nowhere |
| Outcomes.EndedOnceMailedOnce | backend/app/services/mail.py:69-92 | Over any run with any failing inserts: a ride is ended by at most one call, its e-mail id is handed out at most once and as often as a message is stored, only once finished |
| Repeats.EndingCallDecides | backend/app/services/rides.py:306-349 | Clock, reason and receipt of the call that ends a ride are what stays, whatever follows; a rider's call did so where some zone's polygon holds the scooter, a report below the threshold |
| Repeats.SomeCallEnded | backend/app/services/rides.py:369-403 | Behind every finished ride of a run stands one finish or report, and the row is what that call made of it |
| Repeats.SwitchTwice | backend/app/services/rides.py:280-296 | A repeated pause or resume changes nothing |
| Repeats.FinishTwice | backend/app/services/rides.py:322-327 | A repeated finish changes nothing but a missing receipt, which it stores whenever the insert succeeds |
| Repeats.StartTwice | backend/app/services/rides.py:231-235 | A repeated start gives back the ride under way and changes nothing |
| Repeats.ChargeAndStatusAgree | backend/app/core/config.py:75-88 | In every reachable state a free scooter is available iff its charge reaches the low threshold; with reports taken whole, a ridden one is never below the auto-finish threshold |
| SweepTiming.WarnedAtMostOnce | backend/app/services/booking_sweeper.py:67-94 | Over any run a booking is warned at most once, only while active, strictly before it expires and within both windows |
| SweepTiming.PassOnBooking | backend/app/services/booking_sweeper.py:97-108 | What one pass makes of an active booking |
| SweepTiming.LeftAloneIsWarnedThenExpired | backend/app/services/booking_sweeper.py:35-108 | Passes at most d apart, d no longer than either window, each an expiry and later a warning at one clock with any calls between, from before the expiry to after it: a booking left alone is warned exactly once before it expires and ended less than d after |
| SweepTiming.SweptInTime | backend/app/services/booking_sweeper.py:97-108 | The same for every interleaving of calls whose commits sweep that often: exactly one pass is told to warn, and the booking is ended in time |
| Calls.CreateAnswers | backend/app/services/bookings.py:53-89 | A booking is made iff the scooter is known and available and the user holds and rides nothing; it expires one lifetime after the call, otherwise nothing changes |
| Calls.CreateSaysWhy | backend/app/services/bookings.py:57-72 | Which refusal is given, and exactly when |
| Calls.CancelAnswers | backend/app/services/bookings.py:100-124 | Cancelling succeeds iff the booking is the caller's and active; a stranger's or unknown booking is told as such, and nothing changes |
| Calls.BookingAnswers | backend/app/services/booking_sweeper.py:35-108 | For every call what becomes of every booking: only its user cancels it or rides from it before its expiry, only a pass ends it for its age or warns, only a booking call makes one |
| Calls.SweepAnswers | backend/app/services/booking_sweeper.py:97-108 | A pass names exactly the bookings it ended and those it warned, and touches no ride |
| Calls.StartAnswers | backend/app/services/rides.py:222-273 | A ride begins iff the booking is the caller's, active and not yet over and the scooter charged; then the row bears user, scooter, clock and rates, otherwise nothing changes |
| Calls.StartRefuses | backend/app/services/rides.py:226-252 | Which refusal is given and exactly when; an expired booking not yet swept counts as over |
| Calls.SwitchAnswers | backend/app/services/rides.py:276-303 | Pause and resume are refused for a ride unknown, somebody else's or finished, and in no other case |
| Calls.FinishAnswers | backend/app/services/rides.py:321-349 | Finishing is refused for the place iff no zone's polygon holds the scooter; for a ride unknown or somebody else's as such, and in no other case |
| Calls.FarFromAllZones | backend/app/services/rides.py:329-334 | Outside a box that holds all vertices of all zones no ride can be finished |
| Calls.TelemetryAnswers | backend/app/services/rides.py:406-434 | A report ends a ride iff its charge is below the threshold and the ride is on its scooter; otherwise it changes no ride and is recorded iff the scooter is known |
| Calls.RideAnswers | backend/app/services/rides.py:276-434 | For every call what becomes of every ride: only its user pauses, resumes or, inside a zone, finishes it; only a low report from its scooter ends it besides; stretches end at the clock or at their start |
| Calls.ScooterAnswers | backend/app/services/scooters.py:13-64 | For every call what becomes of every scooter: place and charge are the report's and nobody else's; reported on or let go it is available iff charged |
| Calls.MailAnswers | backend/app/services/rides.py:159-176 | A receipt is stored iff the call was told the ride is done, none is stored and the insert succeeds; its id is handed out exactly then |
| Provenance.BookingHasItsCall | backend/app/services/bookings.py:42-89 | Behind every booking of a run stands one call of its user, on a scooter then available, with that call's clock plus the lifetime as expiry |
| Provenance.RideHasItsStart | backend/app/services/rides.py:209-273 | Behind every ride of a run stands one start of its user, from a booking then active and not over, on a scooter then charged; clock and rates stay to the end |
| Provenance.RidesBeganInTime | backend/app/services/rides.py:236-239 | Every ride of a run began strictly before its booking's expiry |
| Provenance.RidesBeganInTimeUnderTraffic | backend/app/services/rides.py:236-239 | The same under any interleaved traffic |
| Provenance.PlaceIsLastReport | backend/app/services/scooters.py:58-60 | After any run a scooter's place and charge are those of its last report, or the ones it had |
| Provenance.ScooterIsWhatHappened | backend/app/services/scooters.py:42-64 | From the seeded fleet, after any run: the whole row of a scooter is its last report, reserved, riding or paused with the rows that hold it, otherwise available iff charged |
| Interleaving.CommitIsSerial | backend/app/services/rides.py:222-273 | What a transaction writes at commit from its own copies is what the whole call would write then |
| Interleaving.PlainReportIsSerial | backend/app/services/rides.py:406-434 | A report that ends no ride writes the bare report; that is the whole report iff its charge is high enough or no ride is on the scooter |
| Interleaving.ReportCanMissRide | backend/app/services/rides.py:419-433 | A whole execution, from any tables with an active booking on a charged scooter: a low report looks up, a start runs through, the report is recorded, and the ride goes on below the threshold |
| Interleaving.CopiesAreOpen | backend/app/services/rides.py:122-125 | The asserted open segment is there in every copy a transaction holds, so no commit waits for it |
| Interleaving.SweepIsSerial | backend/app/services/booking_sweeper.py:39-61 | A sweep over the bookings it could lock, in any order, is one expiry of that batch |
| Interleaving.ReplyIsSerial | backend/app/services/rides.py:152-156 | What the caller of a commit is told, from the transaction's own copies, is what the whole call would tell |
| Interleaving.StartIsReady | backend/app/services/rides.py:240-247 | In every interleaving a start holding its user's active booking finds no ride of the user and the scooter reserved: only the expiry or the charge can refuse it |
| Interleaving.Serializable | backend/app/services/rides.py:99-119 | Every interleaving of look-ups, locks, re-reads, commits and aborts ends as the committed calls run one after the other in commit order, each caller told the same, consistent all the way |
| Interleaving.SerializableFromIdle | backend/app/services/rides.py:99-119 | From idle consistent tables, with nothing assumed of the scooters, every execution has that serial run |
| Completeness.GivingUpIsSerial | backend/app/services/rides.py:226-252 | In any interleaving a transaction gives up only where the whole call, made at that moment, would change nothing and say so |
| Completeness.GoesOn | backend/app/services/rides.py:99-119 | A transaction that does not give up has a next step it has not taken, enabled once nobody holds the row it needs |
| Completeness.CallRuns | backend/app/services/rides.py:209-434 | From idle tables every call runs out by its lock steps and leaves the tables and the answer of the whole call |
| Completeness.RunsAreExecutions | backend/app/services/rides.py:209-434 | Every run of whole calls is an execution: what calls one after the other can reach, transactions can |
| LockOrder.SweepersDoNotMeet | backend/app/services/booking_sweeper.py:39-60 | Two sweepers never want one scooter: their bookings differ and active bookings have distinct scooters |
| LockOrder.WaitingClimbs | backend/app/services/bookings.py:47-56 | Whoever waits for a lock ranks strictly below its holder: user, then booking or ride, then scooter, the sweeper last |
| LockOrder.NoDeadlock | backend/app/services/bookings.py:47-56 | In every reachable state no ring of transactions waits for one another, and if any are under way one waits for nobody and can take its next step or gives up |
| LockOrder.RacingCalls | backend/app/services/rides.py:276-434 | Any interleaving of finishes, pauses, resumes and reports on one ride, each with any clock: serial, at most one caller is told it ended the ride and the finished row is what that same call made of it, at most one is handed the receipt's id |
| LockOrder.EndedOnceUnderTraffic | backend/app/services/rides.py:306-434 | Under any interleaved traffic a ride is ended by at most one caller, whose call made the row, its receipt is stored at most once and as often as an id is handed out, and finished rows and messages stand |
| LockOrder.ChargeAgreesUnderTraffic | backend/app/services/scooters.py:13-35 | From the seeded fleet, after every interleaving, a free scooter is available iff its charge reaches the low threshold |
| BackendService.CloseSegment | backend/app/services/rides.py:128-149 | The in-place close is the segment rewrite of the timeline and returns the effective time |
| BackendService.Settle | backend/app/services/rides.py:179-198 | The in-place settlement of the ride row is the timeline's |
| BackendService.InAnyZone | backend/app/services/rides.py:330-330 | The loop over zones answers whether some zone contains the position |
| BackendService.Backend.CreateBooking | backend/app/services/bookings.py:42-89 | Tables and outcome are the serial step, refusals and index conflicts included |
| BackendService.Backend.CancelBooking | backend/app/services/bookings.py:92-124 | Tables and outcome are the serial step |
| BackendService.Backend.ExpireOverdue | backend/app/services/booking_sweeper.py:35-64 | The loop, in any order of the rows, ends exactly the overdue bookings and frees exactly their scooters |
| BackendService.Backend.WarnBookings | backend/app/services/booking_sweeper.py:67-94 | Stamps and returns exactly the bookings due |
| BackendService.Backend.SweepBookings | backend/app/services/booking_sweeper.py:97-108 | One pass is the serial step |
| BackendService.Backend.StoreReceipt | backend/app/services/rides.py:159-176 | One message per ride at most; its id only when this call stored it |
| BackendService.Backend.StartRide | backend/app/services/rides.py:209-273 | Tables and outcome are the serial step |
| BackendService.Backend.PauseRide | backend/app/services/rides.py:276-288 | Tables and outcome are the serial step |
| BackendService.Backend.ResumeRide | backend/app/services/rides.py:291-303 | Tables and outcome are the serial step |
| BackendService.Backend.FinishRide | backend/app/services/rides.py:306-349 | Tables and outcome are the serial step |
| BackendService.Backend.AutoFinishRide | backend/app/services/rides.py:369-403 | An unfinished ride ends by battery, the report is on the scooter, the scooter is unavailable; for a finished one None and nothing changes |
| BackendService.Backend.ApplyTelemetry | backend/app/services/scooters.py:42-64 | Only the reported scooter's row changes: position, charge and status |
| BackendService.Backend.RecordTelemetry | backend/app/services/rides.py:406-434 | Tables and outcome are the serial step |
| LiveEstimate.ComputeEstimate | frontend/src/ride/billing.ts:55-88 | The loop's estimate is the sum per kind of billed and live segments, or the receipt |
| LiveEstimate.OpenSeconds | frontend/src/ride/billing.ts:42-52 | The open stretch is the server's or one second less; the server's or one more iff the truncated start hides more than the server carries |
| LiveEstimate.ClientNeverAhead | frontend/src/ride/billing.ts:47-52 | The client never shows more seconds than the server at any instant iff the start's microseconds are no more than the carried fraction |
| LiveEstimate.EstimateTracksBill | frontend/src/ride/billing.ts:54-88 | The running total is within a rounded-up sixtieth of the rate of the receipt at the same instant, below it or above it by the same condition |
| LiveEstimate.LinesTrackBill | frontend/src/ride/billing.ts:54-88 | However often paused and at any clock: the line that is not running is exact in seconds and kopecks, the running one within a second and its price, on the side the same condition tells |
| LiveEstimate.NeverPausedIsExact | frontend/src/ride/billing.ts:54-88 | Never paused and started on a whole millisecond: the display is the bill in all five figures |
| LiveEstimate.TotalNeverAbove | frontend/src/ride/billing.ts:54-88 | The running total is at no instant above the receipt at that instant iff the start's microseconds are no more than the carried fraction or the open stretch is free |
| LiveEstimate.DisplayCanBeAhead | frontend/src/ride/billing.ts:47-52 | A ride started at microsecond 999 at 60 kopecks a minute: at 1000 ms one kopeck is shown and none billed |
| LiveEstimate.NeverPausedExactly | frontend/src/ride/billing.ts:54-88 | Never paused: the seconds shown are the billed ones at every instant iff the ride started on a whole millisecond, and the three amounts iff it did or the ride is free |
| LiveEstimate.FinishedShowsReceipt | frontend/src/ride/billing.ts:56-64 | A finished ride shows the stored receipt whatever the client's clock says |
| ScooterStore.FoldKeepsNewest | frontend/src/realtime/scooterStore.ts:14-27 | Per code a known row stays that none known is a millisecond ahead of; the one stored before only where it is ahead of every update |
| ScooterStore.LatestStaysExactly | frontend/src/realtime/scooterStore.ts:10-27 | For every order and repetition of the rows the latest row per code, to the microsecond, stays iff every update newest by milliseconds is also latest by microseconds |
| ScooterStore.OneStoreExactly | frontend/src/realtime/scooterStore.ts:24-27 | All orders and repetitions of the rows give one store iff no two different updates share the newest millisecond of a code |
| ScooterStore.OlderRowCanStay | frontend/src/realtime/scooterStore.ts:10-12 | Rows of one code at microseconds 900 and 999: applied newer first the older stays, the other way the newer |
| Mailbox.ApplyKeeps | frontend/src/account/mailbox.ts:3-9 | A new message lands in its place in descending order, a known id changes nothing |
| Mailbox.MergeIsUnion | frontend/src/account/mailbox.ts:11-17 | A merge is strictly descending and holds exactly the union of the ids |
| Mailbox.InboxIsWhatWasSeen | frontend/src/account/mailbox.ts:11-17 | Whatever the interleaving of events and loads: strictly descending, exactly the ids seen |
| Mailbox.ArrivalOrderDoesNotMatter | frontend/src/account/mailbox.ts:1-17 | Two tabs that saw the same ids list the same ids in the same order |
| Simulation.PercentIsNearest | simulator/scootersim/fleet.py:46-48 | The reported percentage is within 0..100 and nearest to the true level, the even one halfway |
| Simulation.StatusKeeps | simulator/scootersim/fleet.py:119-153 | A status keeps the scooter sound and in place, starts no demo ride, and parks, frees, charges or sets it riding as it says |
| Simulation.PauseKeepsLeg | simulator/scootersim/fleet.py:134-148 | A pause and a resume bring a user's ride back on the same leg |
| Simulation.TickKeeps | simulator/scootersim/fleet.py:165-214 | A tick keeps the scooter sound, moves only a ride, and raises a battery only when a charge is due |
| Simulation.TickKeepsZone | simulator/scootersim/fleet.py:109-112 | A user's ride inside some zone is inside some zone after the tick |
| Simulation.StepIsBetween | simulator/scootersim/geo.py:32-44 | A step ends between its ends, and at the target when it says so |
| Simulation.DemoStaysInBox | simulator/scootersim/fleet.py:54-57 | A demo ride between points of a box never leaves the box |
| Simulation.DrawnInBounds | simulator/scootersim/geo.py:100-113 | A drawn target lies within the zone's bounds, the fallback to the centroid included |
| Simulation.ZonesAgree | simulator/scootersim/fleet.py:86-90 | With a drawable zone, a place the fleet calls inside is one where the backend lets a ride end; with none, no place is |
| FleetRuns.DispatchFills | simulator/scootersim/fleet.py:216-230 | After the dispatch the demo rides are min(configured, riding + able to depart) |
| FleetRuns.RunKeepsFleet | simulator/scootersim/fleet.py:165-230 | In every state of every run: riding has a target, charge and is not parked, charging has a deadline, batteries are in 0..100, demo rides within the configured number |
| FleetRuns.DemoRidesAreFilledUp | simulator/scootersim/fleet.py:216-230 | After every tick of every run the demo rides are min(configured, riding + able); if fewer, nobody able is left |
| FleetRuns.ParkedStaysPut | simulator/scootersim/fleet.py:42-42 | A scooter reserved or paused throughout stays where it is |
| FleetRuns.RiderStaysInZone | simulator/scootersim/fleet.py:54-57 | Once a user's ride is inside a zone, every later tick and status of that ride keeps it inside one |
| FleetRuns.RiderCanFinish | backend/app/services/rides.py:329-334 | With the backend holding any later reported position of such a ride, finishing it succeeds for its rider |
| FleetLaws.RideTells | simulator/scootersim/fleet.py:194-214 | One tick of a ride: the same share of the way in both coordinates at the configured speed, paid for by the battery; a step out of the user's zone is not made; a flat battery or a demo target ends the ride |
| FleetLaws.StatusTells | simulator/scootersim/fleet.py:119-153 | Phase, target and deadline after every status: a deadline once set stands, a user's ride drops the demo target and keeps its own |
| FleetLaws.ChargePaysForTheWay | simulator/scootersim/fleet.py:204-208 | Over any stretch of a ride the battery lost the way at the configured rate; a user's ride at most its time on top, a demo ride nothing else |
| FleetLaws.ServiceTakesItsTime | simulator/scootersim/fleet.py:123-128 | Taken out of service, a scooter is back, full enough, at the first tick a recharge later and at none before |
| FleetLaws.HeartbeatIsRegular | simulator/scootersim/fleet.py:180-191 | A standing scooter lets exactly its heartbeat of ticks pass between two reports |
| FleetLaws.MovingReports | simulator/scootersim/fleet.py:169-179 | A ride reports at every tick, a scooter out of service only when it is back |
| RiderReports.ReportedRiderCanFinish | simulator/scootersim/fleet.py:54-57 | A user's ride inside a zone since `first`, its scooter having reported where it was at some later moment, whatever calls came since: the rider's call to finish is never refused |
| Simulator.RandomPointInPolygon | simulator/scootersim/geo.py:100-113 | The sampling loop gives a point inside the polygon or its centroid, within its bounds |
| Simulator.Sample | simulator/scootersim/fleet.py:229-229 | Some k of the population, each once |
| Simulator.Build | simulator/scootersim/fleet.py:82-85 | One idle scooter for each listed one, where the backend has it |
| Simulator.FromServer | simulator/scootersim/fleet.py:72-92 | The fleet on the backend's zones, after one step for each listed status |
| Simulator.Fleet.constructor | simulator/scootersim/fleet.py:59-70 | The zones kept to are the given ones, or the middle of the city when there is none |
| Simulator.Fleet.Answer | simulator/scootersim/fleet.py:119-153 | One status in place is the transition of the model, with a target drawn in the rider's zone |
| Simulator.Fleet.ApplyServerStatus | simulator/scootersim/fleet.py:119-123 | One step of the scooter of that code and of no other; an unknown code changes nothing |
| Simulator.Fleet.RefreshStatuses | simulator/scootersim/fleet.py:155-163 | A list of statuses continues any run that led here, one step each, in order |
| Simulator.Fleet.Ride | simulator/scootersim/fleet.py:194-214 | One tick of a ride in place is the transition of the model |
| Simulator.Fleet.Tick | simulator/scootersim/fleet.py:165-192 | One tick is one step of the run and names exactly those who must report, in order |
| Simulator.Fleet.DispatchRides | simulator/scootersim/fleet.py:216-230 | As many rides as are missing or can depart start, on idle scooters able to, and nothing else changes |

## Left out

- FastAPI routers, the WebSocket hub, React hooks and components, deployment and migrations: plumbing and user interface.
- Accounts, passwords, sessions, DNS checks of addresses: foreign calls and short decisions.
- E-mail text, time zones, transliteration of names: formatting.
- `useRide`, `unreadCount`, `validSeen`, `displayMoney` of the client: they depend on React's scheduling or add easy members.
- The simulator's main loop, its HTTP client and its backoff: the loop only strings together the fleet's calls, which may come in any order here.
- PostgreSQL itself: SELECT FOR UPDATE, SKIP LOCKED, savepoints and ON CONFLICT DO NOTHING are taken as the primitives they promise to be.
- The implicit share locks of foreign keys and the row locks of the warning UPDATE: an e-mail insert refers to the user's row after ride and scooter are locked, so deadlock freedom is stated for the explicit row locks only, and the UPDATE is one atomic step.
- LockOrder.NoDeadlock: speaks of the explicit row locks only, as the line above says.
- Interleaving.Serializable: refused and failed calls write nothing and appear as aborts; that the whole call would be refused too is `Completeness.GivingUpIsSerial`, which of several refusals is told is stated for whole calls.
- Interleaving.PlainReportIsSerial: a report whose look-up came before the start of a ride does not end that ride; the project accepts this window, and the exact condition is stated instead of the absence of the window.
- Scooter codes and row ids are one key; a ride's five receipt columns are one optional value; an e-mail is found by its ride.
- Integer widths: Numeric(10, 2) and Integer columns, and the client's 2^53, are unbounded here.
- Raised errors of `segment_cost` and `duration_seconds` for negative seconds and reversed times are preconditions; every caller is proved to meet them.
- IEEE doubles: coordinates, charges and the client's quotient are exact reals, so the bit-identical answers of the Python and TypeScript ray casters are not claimed; the quotient's rounding error is a parameter of `Billing.RoundingIsRobust`.
- SweepTiming.WarnedAtMostOnce: halves the booking's length exactly; rounding of an interval's half to microseconds by the database is not modelled.
- LiveEstimate.OpenSeconds: takes `Date.parse` to keep whole milliseconds, as ECMA-262 has it, and the client's clock to be the server's.
- Money.ParseOfFormat: JavaScript's other spellings of numbers and its negative zero are not modelled; a text that is no run of digits reads as no number.
- ScooterStore.FoldKeepsNewest: the rest of a row is one opaque value, and `Date.parse` is taken to keep whole milliseconds, as ECMA-262 has it.
- The simulator docstring's remark that a border point counts as outside: even-odd counting does not give that, so it is not claimed.
- Simulator.Sample: draws are arbitrary choices; nothing is said about their distribution, and the great-circle distance is any non-negative function.
- Simulator.Fleet.DispatchRides: refers to scooters by their place in the list where the source keeps the objects.
