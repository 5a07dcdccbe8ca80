/** Event for event and instant for instant, what a Run alone with the stores publishes and how long it takes. */
module Narrative {
  import opened StateMachine
  import opened StoreSpec
  import opened Protocol
  import opened Isolation
  import opened FirstAcceptor

  /** What is published of a round: ACCEPTED or DECLINED if the hub delivered that within the window, else TIMED_OUT. */
  function Said(cfg: Config, a: Answer): OfferState {
    if a.Reply? && a.after <= cfg.window && a.resp == Accepted then OfferAccepted
    else if a.Reply? && a.after <= cfg.window && a.resp == Declined then OfferDeclined
    else OfferTimedOut
  }

  /** How long a round waits: for as long as the reply takes, but no longer than the window. */
  function Waited(cfg: Config, a: Answer): nat {
    if a.Reply? && a.after <= cfg.window then a.after else cfg.window
  }

  function Waits(cfg: Config, env: Env, trip: TripId, n: nat): nat {
    if n == 0 then 0 else Waits(cfg, env, trip, n - 1) + Waited(cfg, env.answers(trip, n))
  }

  function Asks(trip: TripId, cell: Cell, d: DriverId, round: nat): Event {
    OfferEvent(trip, d, round, OfferPending, cell)
  }

  function Answers(cfg: Config, env: Env, trip: TripId, cell: Cell, d: DriverId, round: nat): Event {
    OfferEvent(trip, d, round, Said(cfg, env.answers(trip, round)), cell)
  }

  /** A trip found REQUESTED, with someone to offer it to, is announced OFFERED. */
  function Opening(db0: Db, trip: TripId, cell: Cell, ids: seq<DriverId>): seq<Event> {
    if FoundIn(db0, trip) == Some(TripRequested) && ids != [] then [TripEvent(trip, TripOffered, cell, None)] else []
  }

  /** What has been published by the end of round n: to each AVAILABLE candidate in turn a PENDING, then the answer. */
  function Story(cfg: Config, env: Env, db0: Db, trip: TripId, cell: Cell, ids: seq<DriverId>, n: nat): seq<Event>
    requires n <= |Willing(db0.drivers, ids)|
  {
    if n == 0 then Opening(db0, trip, cell, ids)
    else
      var d := Willing(db0.drivers, ids)[n - 1];
      Story(cfg, env, db0, trip, cell, ids, n - 1) + [Asks(trip, cell, d, n)] + [Answers(cfg, env, trip, cell, d, n)]
  }

  /** The backoffs slept by a Run that gives up after n rounds: none follows the last round allowed, nor one with the
      last of the candidates. */
  function Delays(cfg: Config, drivers: Drivers, ids: seq<DriverId>, n: nat): nat {
    if n >= 1 && (n >= cfg.maxRounds || (ids != [] && Asked(drivers, ids, |ids| - 1) == n - 1)) then n - 1 else n
  }

  /** Round n has been told, and m backoffs slept. */
  predicate Tells(cfg: Config, env: Env, db0: Db, run: Run, now: nat, n: nat, m: nat, more: seq<Event>) {
    && n <= |Willing(db0.drivers, run.candidates)|
    && run.trace == Story(cfg, env, db0, run.trip, run.cell, run.candidates, n) + more
    && now == db0.now + Waits(cfg, env, run.trip, n) + Slept(cfg, m)
  }

  /** Round `rounds` is with candidate i, whose turn it is. */
  predicate OnTurn(db0: Db, run: Run)
    requires run.i < |run.candidates|
  {
    var w := Willing(db0.drivers, run.candidates);
    && run.candidates[run.i] in db0.drivers && db0.drivers[run.candidates[run.i]].state == Available
    && 1 <= run.rounds <= |w| && w[run.rounds - 1] == run.candidates[run.i]
    && Asked(db0.drivers, run.candidates, run.i) == run.rounds - 1
  }

  /** Every round before this one has been told, and `more`. */
  predicate Amid(cfg: Config, env: Env, db0: Db, run: Run, now: nat, more: seq<Event>)
    requires run.i < |run.candidates|
  {
    OnTurn(db0, run) && Tells(cfg, env, db0, run, now, run.rounds - 1, run.rounds - 1, more)
  }

  /** This round has been told as well, and `more`, and its backoff not slept. */
  predicate Over(cfg: Config, env: Env, db0: Db, run: Run, now: nat)
    requires run.i < |run.candidates|
  {
    OnTurn(db0, run) && Tells(cfg, env, db0, run, now, run.rounds, run.rounds - 1, [])
  }

  predicate Told(cfg: Config, env: Env, db0: Db, run: Run, db: Db)
    requires InRange(run)
  {
    match run.pc
    case Load => run.trace == [] && db == db0 && run.rounds == 0
    case MarkOffered =>
      && run.trace == [] && db == db0 && run.rounds == 0
      && FoundIn(db0, run.trip) == Some(TripRequested) && run.candidates != []
    case Claim =>
      && run.rounds < cfg.maxRounds
      && Asked(db0.drivers, run.candidates, run.i) == run.rounds
      && Tells(cfg, env, db0, run, db.now, run.rounds, run.rounds, [])
    case Open => Amid(cfg, env, db0, run, db.now, [])
    case Await(_) =>
      Amid(cfg, env, db0, run, db.now, [Asks(run.trip, run.cell, run.candidates[run.i], run.rounds)])
    case Settle(resp) =>
      var waited := Waited(cfg, env.answers(run.trip, run.rounds));
      && waited <= db.now
      && Amid(cfg, env, db0, run, db.now - waited, [Asks(run.trip, run.cell, run.candidates[run.i], run.rounds)])
      && Outcome(resp) == Said(cfg, env.answers(run.trip, run.rounds))
    case GiveUp =>
      Tells(cfg, env, db0, run, db.now, run.rounds, Delays(cfg, db0.drivers, run.candidates, run.rounds), [])
    case Done(Matched(d)) =>
      && run.rounds >= 1
      && Tells(cfg, env, db0, run, db.now, run.rounds, run.rounds - 1,
               [TripEvent(run.trip, TripMatched, run.cell, Some(d))])
    case Done(Unmatched) =>
      Tells(cfg, env, db0, run, db.now, run.rounds, Delays(cfg, db0.drivers, run.candidates, run.rounds),
            [TripEvent(run.trip, TripUnfulfilled, run.cell, None)])
    case Done(Failed(_)) => true
    case Pause(_) =>
      && run.i + 1 < |run.candidates| && run.rounds < cfg.maxRounds
      && run.rounds >= 1 && run.backoff == Backoff(cfg, run.rounds)
      && Over(cfg, env, db0, run, db.now)
    case _ => Over(cfg, env, db0, run, db.now)
  }

  predicate ToldAt(cfg: Config, env: Env, db0: Db, s: (Run, Db)) {
    InRange(s.0) && Told(cfg, env, db0, s.0, s.1)
  }

  /** The Run with this step counted. */
  function Counting(run: Run): Run {
    run.(steps := run.steps + 1)
  }

  /** What a Run alone is known to do that its story depends on. */
  predicate Placed(cfg: Config, db0: Db, run: Run, db: Db) {
    && InRange(run)
    && (run.pc.Load? || run.pc.MarkOffered? ==> run.i == 0)
    && (run.pc.Claim? ==> run.i < |run.candidates| && SameStates(db.drivers, db0.drivers))
    && (run.pc.Release? ==> run.rounds >= 1 && run.backoff == Backoff(cfg, run.rounds))
  }

  lemma AloneIsPlaced(cfg: Config, env: Env, db0: Db, run: Run, db: Db)
    requires Alone(cfg, env, db0, run, db)
    ensures Placed(cfg, db0, run, db)
  {
  }

  /** At the loop head before the first candidate. */
  lemma HeadTells(cfg: Config, env: Env, db0: Db, run: Run, db: Db)
    requires run.rounds == 0 && run.trace == Opening(db0, run.trip, run.cell, run.candidates) && db.now == db0.now
    ensures var t := Head(cfg, run, 0); InRange(t) && Told(cfg, env, db0, t, db)
    ensures run.pc.GiveUp? ==> Told(cfg, env, db0, run, db)
  {
    AskedEnds(db0.drivers, run.candidates);
    assert Slept(cfg, 0) == 0 && Waits(cfg, env, run.trip, 0) == 0;
    assert Story(cfg, env, db0, run.trip, run.cell, run.candidates, 0) + []
           == Opening(db0, run.trip, run.cell, run.candidates);
  }

  lemma LoadingTells(cfg: Config, env: Env, db0: Db, run: Run, db: Db, t: (Run, Db))
    requires InRange(run) && Told(cfg, env, db0, run, db) && run.pc.Load?
    requires t == LoadStep(cfg, Counting(run), db)
    ensures ToldAt(cfg, env, db0, t)
  {
    if t.0.pc.GiveUp? || t.0.pc.Claim? {
      HeadTells(cfg, env, db0, t.0, t.1);
    }
  }

  lemma MarkingTells(cfg: Config, env: Env, db0: Db, run: Run, db: Db, t: (Run, Db))
    requires InRange(run) && Told(cfg, env, db0, run, db) && run.pc.MarkOffered?
    requires t == MarkOfferedStep(cfg, Counting(run), db)
    ensures ToldAt(cfg, env, db0, t)
  {
    if !t.0.pc.Done? {
      HeadTells(cfg, env, db0, t.0, t.1);
    }
  }

  /** Past candidate i, with n rounds told and as many backoffs slept. */
  lemma PassingTells(cfg: Config, env: Env, db0: Db, run: Run, db: Db)
    requires run.i < |run.candidates| && run.rounds < cfg.maxRounds
    requires Asked(db0.drivers, run.candidates, run.i + 1) == run.rounds
    requires Asked(db0.drivers, run.candidates, run.i) == run.rounds
    requires Tells(cfg, env, db0, run, db.now, run.rounds, run.rounds, [])
    ensures Told(cfg, env, db0, Head(cfg, run, run.i + 1), db)
  {
  }

  lemma ClaimingTells(cfg: Config, env: Env, db0: Db, run: Run, db: Db, t: (Run, Db))
    requires Placed(cfg, db0, run, db) && Told(cfg, env, db0, run, db) && run.pc.Claim?
    requires t == ClaimStep(cfg, Counting(run), db)
    ensures ToldAt(cfg, env, db0, t)
  {
    AskedSteps(db0.drivers, run.candidates, run.i);
    if run.candidates[run.i] in db.drivers && db.drivers[run.candidates[run.i]].state != Available {
      PassingTells(cfg, env, db0, Counting(run), db);
    }
  }

  lemma OpeningTells(cfg: Config, env: Env, db0: Db, run: Run, db: Db, t: (Run, Db))
    requires InRange(run) && Told(cfg, env, db0, run, db) && run.pc.Open?
    requires t == OpenStep(cfg, Counting(run), db)
    ensures ToldAt(cfg, env, db0, t)
  {
  }

  lemma AwaitingTells(cfg: Config, env: Env, db0: Db, run: Run, db: Db, t: (Run, Db))
    requires InRange(run) && Told(cfg, env, db0, run, db) && run.pc.Await?
    requires var h := Hears(cfg, env.answers(run.trip, run.rounds));
             t == (Counting(run).(pc := Settle(h.0)), db.(now := db.now + h.1))
    ensures ToldAt(cfg, env, db0, t)
  {
  }

  lemma SettlingTells(cfg: Config, env: Env, db0: Db, run: Run, db: Db, t: (Run, Db))
    requires InRange(run) && Told(cfg, env, db0, run, db) && run.pc.Settle?
    requires t == SettleStep(Counting(run), db)
    ensures ToldAt(cfg, env, db0, t)
  {
  }

  lemma EngagingTells(cfg: Config, env: Env, db0: Db, run: Run, db: Db, t: (Run, Db))
    requires InRange(run) && Told(cfg, env, db0, run, db) && run.pc.Engage?
    requires t == EngageStep(Counting(run), db)
    ensures ToldAt(cfg, env, db0, t)
  {
  }

  lemma CommittingTells(cfg: Config, env: Env, db0: Db, run: Run, db: Db, t: (Run, Db))
    requires InRange(run) && Told(cfg, env, db0, run, db) && run.pc.Commit?
    requires t == CommitStep(Counting(run), db)
    ensures ToldAt(cfg, env, db0, t)
  {
  }

  lemma ReleasingTells(cfg: Config, env: Env, db0: Db, run: Run, db: Db, t: (Run, Db))
    requires Placed(cfg, db0, run, db) && Told(cfg, env, db0, run, db) && run.pc.Release?
    requires t == ReleaseStep(cfg, Counting(run), db)
    ensures ToldAt(cfg, env, db0, t)
  {
  }

  lemma ResumingTells(cfg: Config, env: Env, db0: Db, run: Run, db: Db, t: (Run, Db))
    requires InRange(run) && Told(cfg, env, db0, run, db) && run.pc.Pause?
    requires var run1 := Counting(run).(backoff := NextBackoff(cfg, run.backoff));
             t == (Head(cfg, run1, run.i + 1), db.(now := db.now + run.backoff))
    ensures ToldAt(cfg, env, db0, t)
  {
    AskedSteps(db0.drivers, run.candidates, run.i);
  }

  lemma GivingUpTells(cfg: Config, env: Env, db0: Db, run: Run, db: Db, t: (Run, Db))
    requires InRange(run) && Told(cfg, env, db0, run, db) && run.pc.GiveUp?
    requires t == GiveUpStep(Counting(run), db)
    ensures ToldAt(cfg, env, db0, t)
  {
  }

  lemma AskingMoves(cfg: Config, env: Env, db0: Db, run: Run, db: Db, t: (Run, Db))
    requires Placed(cfg, db0, run, db) && Told(cfg, env, db0, run, db)
    requires run.pc.Load? || run.pc.MarkOffered? || run.pc.Claim? || run.pc.Open? || run.pc.Await?
    requires (run.pc.Await? || !env.fails(run.steps)) && t == Move(cfg, env, (run, db))
    ensures ToldAt(cfg, env, db0, t)
  {
    match run.pc
    case Load => LoadingTells(cfg, env, db0, run, db, t);
    case MarkOffered => MarkingTells(cfg, env, db0, run, db, t);
    case Claim => ClaimingTells(cfg, env, db0, run, db, t);
    case Open => OpeningTells(cfg, env, db0, run, db, t);
    case Await(_) => AwaitingTells(cfg, env, db0, run, db, t);
  }

  lemma SettlingMoves(cfg: Config, env: Env, db0: Db, run: Run, db: Db, t: (Run, Db))
    requires Placed(cfg, db0, run, db) && Told(cfg, env, db0, run, db)
    requires run.pc.Settle? || run.pc.Engage? || run.pc.Commit? || run.pc.Release? || run.pc.Pause? || run.pc.GiveUp?
    requires !env.fails(run.steps) && t == Move(cfg, env, (run, db))
    ensures ToldAt(cfg, env, db0, t)
  {
    match run.pc
    case Settle(_) => SettlingTells(cfg, env, db0, run, db, t);
    case Engage => EngagingTells(cfg, env, db0, run, db, t);
    case Commit => CommittingTells(cfg, env, db0, run, db, t);
    case Release => ReleasingTells(cfg, env, db0, run, db, t);
    case Pause(_) => ResumingTells(cfg, env, db0, run, db, t);
    case GiveUp => GivingUpTells(cfg, env, db0, run, db, t);
  }

  lemma MoveTells(cfg: Config, env: Env, db0: Db, s: (Run, Db), t: (Run, Db))
    requires Placed(cfg, db0, s.0, s.1) && ToldAt(cfg, env, db0, s) && t == Move(cfg, env, s)
    ensures ToldAt(cfg, env, db0, t)
  {
    var (run, db) := s;
    if run.pc.Done? || (!run.pc.Await? && env.fails(run.steps)) {
      assert t.0.pc == (if run.pc.Done? then run.pc else Done(Failed(Io)));
    } else if run.pc.Load? || run.pc.MarkOffered? || run.pc.Claim? || run.pc.Open? || run.pc.Await? {
      AskingMoves(cfg, env, db0, run, db, t);
    } else {
      SettlingMoves(cfg, env, db0, run, db, t);
    }
  }

  lemma {:induction false} StartedTells(cfg: Config, env: Env, job: Job, db0: Db, n: nat)
    ensures ToldAt(cfg, env, db0, Started(cfg, env, job, db0, n))
  {
    if n > 0 {
      StartedTells(cfg, env, job, db0, n - 1);
      StartedAlone(cfg, env, job, db0, n - 1);
      var s := Started(cfg, env, job, db0, n - 1);
      var t := Move(cfg, env, s);
      assert Started(cfg, env, job, db0, n) == t;
      AloneIsPlaced(cfg, env, db0, s.0, s.1);
      MoveTells(cfg, env, db0, s, t);
    }
  }

  /** The rounds held: up to the first acceptance, or one with each of the first MaxRounds AVAILABLE candidates. */
  function Held(cfg: Config, env: Env, drivers: Drivers, trip: TripId, ids: seq<DriverId>): (n: nat)
    ensures n <= |Willing(drivers, ids)|
  {
    var offers := |Take(Willing(drivers, ids), cfg.maxRounds)|;
    var winner := FirstAcceptance(cfg, env, trip, offers);
    if winner > 0 then winner else offers
  }

  /** All there is to a dispatch that ends without an error: what becomes of the trip and the drivers, every event
      published, and how long it took. */
  predicate Served(
    cfg: Config, env: Env, trip: TripId, cell: Cell, ids: seq<DriverId>, before: Db, after: Db, events: seq<Event>)
  {
    var n := Held(cfg, env, before.drivers, trip, ids);
    && Decided(cfg, env, trip, ids, before.drivers, after)
    && (InState(after, trip, TripMatched) ==> n >= 1)
    && var (last, slept) :=
         if InState(after, trip, TripMatched)
         then (TripEvent(trip, TripMatched, cell, after.trips.trips[trip].matchedDriver), n - 1)
         else (TripEvent(trip, TripUnfulfilled, cell, None), Delays(cfg, before.drivers, ids, n));
       && events == Story(cfg, env, before, trip, cell, ids, n) + [last]
       && after.now == before.now + Waits(cfg, env, trip, n) + Slept(cfg, slept)
  }

  /** A nil-error Run's outcome, its events, every one of them, and its exact duration: OFFERED if it found the trip
      REQUESTED, a PENDING and the answer given for each round, then MATCHED or UNFULFILLED. */
  lemma RunTellsItsStory(cfg: Config, env: Env, job: Job, db0: Db, n: nat)
    requires var run := Started(cfg, env, job, db0, n).0; run.pc.Done? && !run.pc.result.Failed?
    ensures var (run, db) := Started(cfg, env, job, db0, n);
            Served(cfg, env, job.trip, job.cell, job.candidates, db0, db, run.trace)
  {
    StartedTells(cfg, env, job, db0, n);
    StartedKeepsRequest(cfg, env, job, db0, n);
    RunFindsFirstAcceptor(cfg, env, job, db0, n);
  }
}
