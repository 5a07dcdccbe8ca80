/** Dispatcher.Run as a machine that makes one store call (or one wait) per step. */
module Protocol {
  import opened StateMachine
  import opened StoreSpec

  // Durations are in nanoseconds, as time.Duration counts them.
  const SECOND: nat := 1_000_000_000
  const OFFER_RECORD_GRACE: nat := 10 * SECOND

  datatype Config = Config(window: nat, maxRounds: int, base: nat, max: nat)

  const DEFAULT_CONFIG := Config(15 * SECOND, 5, 1 * SECOND, 10 * SECOND)

  datatype Response = NoResponse | Accepted | Declined

  /** What the response hub will deliver in a given round, and how long after the offer opens. */
  datatype Answer = Silence | Reply(resp: Response, after: nat)

  datatype Event =
    | TripEvent(trip: TripId, tripState: TripState, cell: Cell, driver: Option<DriverId>)
    | OfferEvent(offeredTrip: TripId, to: DriverId, round: nat, offerState: OfferState, at: Cell)

  datatype Result = Matched(driver: DriverId) | Unmatched | Failed(err: Err)

  /** The next thing a Run will do. */
  datatype Pc =
    | Load                        // GetTrip
    | MarkOffered                 // SetTripState(OFFERED)
    | Claim                       // SetState(driver, OFFERED)
    | Open                        // CreateOffer
    | Await(until: nat)           // awaitResponse
    | Settle(resp: Response)      // SetOfferState
    | Engage                      // SetState(driver, EN_ROUTE)
    | Commit                      // MarkMatched
    | Release                     // SetState(driver, AVAILABLE)
    | Pause(until: nat)           // sleep(backoff)
    | GiveUp                      // MarkUnfulfilled
    | Done(result: Result)

  datatype Run = Run(
    trip: TripId, cell: Cell, candidates: seq<DriverId>,
    pc: Pc, i: nat, rounds: nat, backoff: nat,
    found: Option<TripState>,     // the state GetTrip returned
    openedAt: nat,                // when the latest offer was created
    trace: seq<Event>, steps: nat)

  /** What Run is called with, and how many calls its context has already made. */
  datatype Job = Job(trip: TripId, cell: Cell, candidates: seq<DriverId>, firstStep: nat)

  function Begin(job: Job, base: nat): Run {
    Run(job.trip, job.cell, job.candidates, Load, 0, 0, base, None, 0, [], job.firstStep)
  }

  /** The loop head at candidate i: another claim, or the end of the search. */
  function Head(cfg: Config, run: Run, i: nat): Run {
    run.(i := i, pc := if i < |run.candidates| && run.rounds < cfg.maxRounds then Claim else GiveUp)
  }

  function Fail(run: Run, e: Err): Run {
    run.(pc := Done(Failed(e)))
  }

  function PublishTrip(run: Run, s: TripState, d: Option<DriverId>): Run {
    run.(trace := run.trace + [TripEvent(run.trip, s, run.cell, d)])
  }

  function PublishOffer(run: Run, d: DriverId, s: OfferState): Run {
    run.(trace := run.trace + [OfferEvent(run.trip, d, run.rounds, s, run.cell)])
  }

  function Outcome(resp: Response): OfferState {
    match resp
    case Accepted => OfferAccepted
    case Declined => OfferDeclined
    case NoResponse => OfferTimedOut
  }

  function NextBackoff(cfg: Config, b: nat): nat {
    if b * 2 > cfg.max then cfg.max else b * 2
  }

  /** A Run whose program counter needs candidates[i] has one. */
  predicate InRange(run: Run) {
    (run.pc.Claim? || run.pc.Open? || run.pc.Await? || run.pc.Settle?
     || run.pc.Engage? || run.pc.Commit? || run.pc.Release? || run.pc.Pause?)
    ==> run.i < |run.candidates|
  }

  function AfterRound(cfg: Config, run: Run, now: nat): Run
    requires run.i < |run.candidates|
  {
    if run.i + 1 < |run.candidates| && run.rounds < cfg.maxRounds
    then run.(pc := Pause(now + run.backoff))
    else Head(cfg, run, run.i + 1)
  }

  function LoadStep(cfg: Config, run: Run, db: Db): (s: (Run, Db))
    requires run.pc.Load?
    ensures InRange(s.0)
  {
    if run.trip !in db.trips.trips then (Fail(run, TripNotFound), db)
    else
      var state := db.trips.trips[run.trip].state;
      if Terminal(state) then (Fail(run, TripAlreadyTerminal(state)), db)
      else
        var run' := run.(found := Some(state));
        if run.candidates == [] then (run'.(pc := GiveUp), db)
        else if state == TripRequested then (run'.(pc := MarkOffered), db)
        else (Head(cfg, run', 0), db)
  }

  function MarkOfferedStep(cfg: Config, run: Run, db: Db): (s: (Run, Db))
    requires run.pc.MarkOffered?
    ensures InRange(s.0)
  {
    var r := MoveTrip(db.trips, run.trip, TripOffered, None);
    if r.err.Some? then (Fail(run, r.err.value), db)
    else (Head(cfg, PublishTrip(run, TripOffered, None), 0), db.(trips := r.table))
  }

  /** Losing a driver to another trip costs neither a round nor a delay. */
  function ClaimStep(cfg: Config, run: Run, db: Db): (s: (Run, Db))
    requires run.pc.Claim? && InRange(run)
    ensures InRange(s.0)
  {
    var r := SetDriver(db.drivers, run.candidates[run.i], Offered, db.now);
    if r.err.None? then (run.(pc := Open, rounds := run.rounds + 1), db.(drivers := r.drivers))
    else if r.err.value.IllegalDriver? then (Head(cfg, run, run.i + 1), db)
    else (Fail(run, r.err.value), db)
  }

  function OpenStep(cfg: Config, run: Run, db: Db): (s: (Run, Db))
    requires run.pc.Open? && InRange(run)
    ensures InRange(s.0)
  {
    var d := run.candidates[run.i];
    (PublishOffer(run, d, OfferPending).(pc := Await(db.now + cfg.window), openedAt := db.now),
     db.(offers := OpenOfferFor(db.offers, run.trip, d, run.rounds, cfg.window + OFFER_RECORD_GRACE, db.now)))
  }

  /** A timeout tolerates an offer record that is already gone; an answer does not. */
  function SettleStep(run: Run, db: Db): (s: (Run, Db))
    requires run.pc.Settle? && InRange(run)
    ensures InRange(s.0)
  {
    var d := run.candidates[run.i];
    var r := SettleOffer(db.offers, run.trip, d, Outcome(run.pc.resp), db.now);
    if r.err.Some? && !(run.pc.resp == NoResponse && r.err.value == OfferNotFound) then (Fail(run, r.err.value), db)
    else (PublishOffer(run, d, Outcome(run.pc.resp)).(pc := if run.pc.resp == Accepted then Engage else Release),
          db.(offers := r.table))
  }

  function EngageStep(run: Run, db: Db): (s: (Run, Db))
    requires run.pc.Engage? && InRange(run)
    ensures InRange(s.0)
  {
    var r := SetDriver(db.drivers, run.candidates[run.i], EnRoute, db.now);
    if r.err.Some? && !r.err.value.IllegalDriver? then (Fail(run, r.err.value), db)
    else (run.(pc := Commit), db.(drivers := r.drivers))
  }

  function CommitStep(run: Run, db: Db): (s: (Run, Db))
    requires run.pc.Commit? && InRange(run)
    ensures InRange(s.0)
  {
    var d := run.candidates[run.i];
    var r := MoveTrip(db.trips, run.trip, TripMatched, Some(d));
    if r.err.Some? then (Fail(run, r.err.value), db)
    else (PublishTrip(run, TripMatched, Some(d)).(pc := Done(Matched(d))), db.(trips := r.table))
  }

  function ReleaseStep(cfg: Config, run: Run, db: Db): (s: (Run, Db))
    requires run.pc.Release? && InRange(run)
    ensures InRange(s.0)
  {
    var r := SetDriver(db.drivers, run.candidates[run.i], Available, db.now);
    if r.err.Some? && !r.err.value.IllegalDriver? then (Fail(run, r.err.value), db)
    else (AfterRound(cfg, run, db.now), db.(drivers := r.drivers))
  }

  function GiveUpStep(run: Run, db: Db): (s: (Run, Db))
    requires run.pc.GiveUp?
    ensures InRange(s.0)
  {
    var r := MoveTrip(db.trips, run.trip, TripUnfulfilled, None);
    if r.err.Some? then (Fail(run, r.err.value), db)
    else (PublishTrip(run, TripUnfulfilled, None).(pc := Done(Unmatched)), db.(trips := r.table))
  }

  /** One step. `down` makes the store call, or the sleep, fail without effect; `resp` is what the wait returns. */
  function Step(cfg: Config, run0: Run, db: Db, resp: Response, down: bool): (s: (Run, Db))
    requires InRange(run0) && !run0.pc.Done?
    ensures InRange(s.0)
  {
    var run := run0.(steps := run0.steps + 1);
    if run.pc.Await? then (run.(pc := Settle(resp)), db)
    else if down then (Fail(run, Io), db)
    else
      match run.pc
      case Load => LoadStep(cfg, run, db)
      case MarkOffered => MarkOfferedStep(cfg, run, db)
      case Claim => ClaimStep(cfg, run, db)
      case Open => OpenStep(cfg, run, db)
      case Settle(_) => SettleStep(run, db)
      case Engage => EngageStep(run, db)
      case Commit => CommitStep(run, db)
      case Release => ReleaseStep(cfg, run, db)
      case Pause(_) => (Head(cfg, run.(backoff := NextBackoff(cfg, run.backoff)), run.i + 1), db)
      case GiveUp => GiveUpStep(run, db)
  }

  // ---- backoff -------------------------------------------------------------

  function Pow2(n: nat): nat {
    if n == 0 then 1 else 2 * Pow2(n - 1)
  }

  /** The delay slept after round r, in closed form. */
  function Backoff(cfg: Config, r: nat): nat
    requires r >= 1
  {
    if r == 1 then cfg.base
    else if cfg.base * Pow2(r - 1) > cfg.max then cfg.max else cfg.base * Pow2(r - 1)
  }

  lemma BackoffSteps(cfg: Config, r: nat)
    requires r >= 1
    ensures NextBackoff(cfg, Backoff(cfg, r)) == Backoff(cfg, r + 1)
  {
    assert Pow2(r) == 2 * Pow2(r - 1);
    var p, b := Pow2(r - 1), cfg.base;
    assert b * Pow2(r) == 2 * (b * p);
    if r > 1 && b * p > cfg.max {
      assert 2 * (b * p) > cfg.max;
    }
    if r == 1 {
      assert b * p == b;
    }
  }

  // ---- the published events ------------------------------------------------

  /** Where a reader of one Run's events is: whether the trip has yet to be announced as OFFERED, which candidates may
      still be named, which round is open. */
  datatype Phase =
    | Unmarked
    | Quiet(round: nat, from: nat)
    | Asking(round: nat, from: nat, driver: DriverId)
    | Agreed(round: nat, driver: DriverId)
    | Closed(result: Result)

  /** Where the events of a Run begin that finds its trip in this state. */
  function FirstPhase(found: Option<TripState>): Phase {
    if found == Some(TripRequested) then Unmarked else Quiet(0, 0)
  }

  /** The least index at or after `from` naming d, or |ids|. */
  function IndexFrom(ids: seq<DriverId>, d: DriverId, from: nat): (k: nat)
    ensures k < |ids| ==> ids[k] == d && k >= from
    ensures forall j :: from <= j < |ids| && ids[j] == d ==> k <= j
    decreases |ids| - from
  {
    if from >= |ids| then |ids| else if ids[from] == d then from else IndexFrom(ids, d, from + 1)
  }

  /** The grammar of a Run's events, as an automaton; None is a rejected event. */
  function Reads(trip: TripId, cell: Cell, ids: seq<DriverId>, maxRounds: int, p: Phase, e: Event): Option<Phase> {
    match e
    case TripEvent(t, s, c, d) =>
      if t != trip || c != cell then None
      else if p.Unmarked? && ids != [] && s == TripOffered && d.None? then Some(Quiet(0, 0))
      else if (p.Quiet? || (p.Unmarked? && ids == [])) && s == TripUnfulfilled && d.None? then Some(Closed(Unmatched))
      else if p.Agreed? && s == TripMatched && d == Some(p.driver) then Some(Closed(Matched(p.driver)))
      else None
    case OfferEvent(t, d, r, s, c) =>
      if t != trip || c != cell then None
      else if p.Quiet? && s == OfferPending then
        var at := IndexFrom(ids, d, p.from);
        if at < |ids| && r == p.round + 1 && r <= maxRounds then Some(Asking(r, at + 1, d)) else None
      else if p.Asking? && d == p.driver && r == p.round then
        if s == OfferAccepted then Some(Agreed(r, d))
        else if s == OfferDeclined || s == OfferTimedOut then Some(Quiet(r, p.from))
        else None
      else None
  }

  function Parse(first: Phase, trip: TripId, cell: Cell, ids: seq<DriverId>, maxRounds: int, trace: seq<Event>)
    : Option<Phase>
  {
    if trace == [] then Some(first)
    else
      var before := Parse(first, trip, cell, ids, maxRounds, trace[..|trace| - 1]);
      if before.None? then None else Reads(trip, cell, ids, maxRounds, before.value, trace[|trace| - 1])
  }

  function Heard(cfg: Config, run: Run): Option<Phase> {
    Parse(FirstPhase(run.found), run.trip, run.cell, run.candidates, cfg.maxRounds, run.trace)
  }

  lemma ParseAppend(
    first: Phase, trip: TripId, cell: Cell, ids: seq<DriverId>, maxRounds: int, trace: seq<Event>, e: Event)
    ensures var before := Parse(first, trip, cell, ids, maxRounds, trace);
            Parse(first, trip, cell, ids, maxRounds, trace + [e])
            == if before.None? then None else Reads(trip, cell, ids, maxRounds, before.value, e)
  {
    assert (trace + [e])[..|trace + [e]| - 1] == trace;
  }

  /** A trip found REQUESTED, with candidates, is announced OFFERED before anything else is said of it. */
  lemma {:induction false} UnmarkedIsAnnounced(
    trip: TripId, cell: Cell, ids: seq<DriverId>, maxRounds: int, trace: seq<Event>)
    requires ids != [] && Parse(Unmarked, trip, cell, ids, maxRounds, trace).Some?
    ensures trace == [] <==> Parse(Unmarked, trip, cell, ids, maxRounds, trace) == Some(Unmarked)
    ensures trace != [] ==> trace[0] == TripEvent(trip, TripOffered, cell, None)
  {
    if |trace| > 1 {
      UnmarkedIsAnnounced(trip, cell, ids, maxRounds, trace[..|trace| - 1]);
    }
  }

  predicate Announces(e: Event) {
    e.TripEvent? && e.tripState == TripOffered
  }

  /** Any other trip never is, and no trip twice. */
  lemma {:induction false} OfferedComesFirst(
    first: Phase, trip: TripId, cell: Cell, ids: seq<DriverId>, maxRounds: int, trace: seq<Event>, k: nat)
    requires Parse(first, trip, cell, ids, maxRounds, trace).Some? && k < |trace|
    requires Announces(trace[k])
    ensures k == 0 && first.Unmarked? && ids != []
  {
    NotUnmarkedAgain(first, trip, cell, ids, maxRounds, trace[..|trace| - 1]);
    if k < |trace| - 1 {
      OfferedComesFirst(first, trip, cell, ids, maxRounds, trace[..|trace| - 1], k);
    }
  }

  /** So OFFERED is among the events exactly if it is due and anything has been said at all. */
  lemma AnnouncedIff(first: Phase, trip: TripId, cell: Cell, ids: seq<DriverId>, maxRounds: int, trace: seq<Event>)
    requires Parse(first, trip, cell, ids, maxRounds, trace).Some?
    ensures (exists k :: 0 <= k < |trace| && Announces(trace[k])) <==> first.Unmarked? && ids != [] && trace != []
    ensures forall k :: 0 <= k < |trace| && Announces(trace[k]) ==>
              k == 0 && trace[k] == TripEvent(trip, TripOffered, cell, None)
  {
    if first.Unmarked? && ids != [] {
      UnmarkedIsAnnounced(trip, cell, ids, maxRounds, trace);
    }
    forall k | 0 <= k < |trace| && Announces(trace[k])
      ensures k == 0 && first.Unmarked? && ids != []
    {
      OfferedComesFirst(first, trip, cell, ids, maxRounds, trace, k);
    }
  }

  lemma {:induction false} NotUnmarkedAgain(
    first: Phase, trip: TripId, cell: Cell, ids: seq<DriverId>, maxRounds: int, trace: seq<Event>)
    ensures Parse(first, trip, cell, ids, maxRounds, trace) == Some(Unmarked) ==> trace == [] && first.Unmarked?
  {
  }

  /** Events heard between rounds: `r` rounds closed, every candidate from `i` on still open to be named. */
  predicate Between(p: Option<Phase>, r: nat, i: nat) {
    p.Some? && p.value.Quiet? && p.value.round == r && p.value.from <= i
  }

  predicate InRound(p: Option<Phase>, r: nat, i: nat, d: DriverId) {
    p.Some? && p.value.Asking? && p.value.round == r && p.value.driver == d && p.value.from <= i + 1
  }

  /** The counters of a Run agree with where it stands, whatever the rest of the system does. */
  predicate Counted(cfg: Config, run: Run) {
    && InRange(run)
    && (run.rounds <= cfg.maxRounds || run.rounds == 0)
    && (run.pc.Load? || run.pc.MarkOffered? ==> run.rounds == 0 && run.i == 0)
    && (run.pc.Claim? ==> run.rounds < cfg.maxRounds)
    && (run.pc.Open? || run.pc.Await? || run.pc.Settle? || run.pc.Engage? || run.pc.Commit? || run.pc.Release?
        ==> run.rounds >= 1 && run.backoff == Backoff(cfg, run.rounds))
    && (run.pc.Pause? ==> 1 <= run.rounds < cfg.maxRounds && run.backoff == Backoff(cfg, run.rounds))
    && (run.pc.Claim? || run.pc.Load? || run.pc.MarkOffered? ==> run.backoff == Backoff(cfg, run.rounds + 1))
  }

  /** The events a Run has published are those its place in the loop calls for. */
  predicate Audible(cfg: Config, run: Run)
    requires Counted(cfg, run)
  {
    var heard := Heard(cfg, run);
    match run.pc
    case Load => run.trace == []
    case MarkOffered => run.trace == [] && run.found == Some(TripRequested) && run.candidates != []
    case Claim => Between(heard, run.rounds, run.i)
    case Open => Between(heard, run.rounds - 1, run.i)
    case Await(_) => InRound(heard, run.rounds, run.i, run.candidates[run.i])
    case Settle(_) => InRound(heard, run.rounds, run.i, run.candidates[run.i])
    case Engage => heard == Some(Agreed(run.rounds, run.candidates[run.i]))
    case Commit => heard == Some(Agreed(run.rounds, run.candidates[run.i]))
    case Release => Between(heard, run.rounds, run.i + 1)
    case Pause(_) => Between(heard, run.rounds, run.i + 1)
    case GiveUp => Between(heard, run.rounds, |run.candidates|) || (heard == Some(Unmarked) && run.candidates == [])
    case Done(Failed(_)) => heard.Some? && !heard.value.Closed?
    case Done(result) => heard == Some(Closed(result))
  }

  predicate Local(cfg: Config, run: Run) {
    Counted(cfg, run) && Audible(cfg, run)
  }

  lemma BeginIsLocal(cfg: Config, job: Job)
    ensures Local(cfg, Begin(job, cfg.base))
  {
  }

  /** How a step's one published event, if any, moves the reader. */
  lemma HeardNext(cfg: Config, run: Run, next: Run)
    requires next.trip == run.trip && next.cell == run.cell && next.candidates == run.candidates
    requires next.found == run.found
    requires || next.trace == run.trace
             || (|next.trace| == |run.trace| + 1 && next.trace == run.trace + [next.trace[|run.trace|]])
    ensures Heard(cfg, next)
            == if next.trace == run.trace || Heard(cfg, run).None? then Heard(cfg, run)
               else Reads(run.trip, run.cell, run.candidates, cfg.maxRounds, Heard(cfg, run).value,
                   next.trace[|run.trace|])
  {
    if next.trace != run.trace {
      ParseAppend(FirstPhase(run.found), run.trip, run.cell, run.candidates, cfg.maxRounds, run.trace,
                  next.trace[|run.trace|]);
    } else {
      assert |next.trace| == |run.trace|;
    }
  }

  lemma StepKeepsCounted(cfg: Config, run: Run, db: Db, resp: Response, down: bool)
    requires Counted(cfg, run) && !run.pc.Done?
    ensures Counted(cfg, Step(cfg, run, db, resp, down).0)
  {
    if run.pc.Pause? {
      BackoffSteps(cfg, run.rounds);
    }
  }

  lemma StartingKeepsAudible(cfg: Config, run: Run, db: Db, resp: Response, down: bool, next: Run)
    requires Local(cfg, run) && (run.pc.Load? || run.pc.MarkOffered?)
    requires Counted(cfg, next) && next == Step(cfg, run, db, resp, down).0
    ensures Audible(cfg, next)
  {
    if run.pc.MarkOffered? {
      HeardNext(cfg, run, next);
    }
  }

  lemma AskingKeepsAudible(cfg: Config, run: Run, db: Db, resp: Response, down: bool, next: Run)
    requires Local(cfg, run) && (run.pc.Claim? || run.pc.Open? || run.pc.Await?)
    requires Counted(cfg, next) && next == Step(cfg, run, db, resp, down).0
    ensures Audible(cfg, next)
  {
    HeardNext(cfg, run, next);
  }

  lemma SettlingKeepsAudible(cfg: Config, run: Run, db: Db, resp: Response, down: bool, next: Run)
    requires Local(cfg, run) && (run.pc.Settle? || run.pc.Engage? || run.pc.Commit?)
    requires Counted(cfg, next) && next == Step(cfg, run, db, resp, down).0
    ensures Audible(cfg, next)
  {
    HeardNext(cfg, run, next);
  }

  lemma ReleasingKeepsAudible(cfg: Config, run: Run, db: Db, resp: Response, down: bool, next: Run)
    requires Local(cfg, run) && (run.pc.Release? || run.pc.Pause?)
    requires Counted(cfg, next) && next == Step(cfg, run, db, resp, down).0
    ensures Audible(cfg, next)
  {
    HeardNext(cfg, run, next);
  }

  lemma GivingUpKeepsAudible(cfg: Config, run: Run, db: Db, resp: Response, down: bool, next: Run)
    requires Local(cfg, run) && run.pc.GiveUp?
    requires Counted(cfg, next) && next == Step(cfg, run, db, resp, down).0
    ensures Audible(cfg, next)
  {
    HeardNext(cfg, run, next);
  }

  lemma StepKeepsLocal(cfg: Config, run: Run, db: Db, resp: Response, down: bool)
    requires Local(cfg, run) && !run.pc.Done?
    ensures Local(cfg, Step(cfg, run, db, resp, down).0)
  {
    var next := Step(cfg, run, db, resp, down).0;
    StepKeepsCounted(cfg, run, db, resp, down);
    if run.pc.Load? || run.pc.MarkOffered? {
      StartingKeepsAudible(cfg, run, db, resp, down, next);
    } else if run.pc.Claim? || run.pc.Open? || run.pc.Await? {
      AskingKeepsAudible(cfg, run, db, resp, down, next);
    } else if run.pc.Settle? || run.pc.Engage? || run.pc.Commit? {
      SettlingKeepsAudible(cfg, run, db, resp, down, next);
    } else if run.pc.GiveUp? {
      GivingUpKeepsAudible(cfg, run, db, resp, down, next);
    } else {
      ReleasingKeepsAudible(cfg, run, db, resp, down, next);
    }
  }
}
