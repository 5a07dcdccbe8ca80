/** What a Run alone with the stores computes: the first acceptor among the first MaxRounds available candidates. */
module FirstAcceptor {
  import opened StateMachine
  import opened StoreSpec
  import opened Protocol
  import opened Isolation

  type Drivers = map<DriverId, DriverRecord>

  /** The candidates whose hash says AVAILABLE, in rank order. */
  function Willing(drivers: Drivers, ids: seq<DriverId>): seq<DriverId> {
    if ids == [] then []
    else
      var last := ids[|ids| - 1];
      Willing(drivers, ids[..|ids| - 1]) + if last in drivers && drivers[last].state == Available then [last] else []
  }

  function Take<T>(s: seq<T>, n: int): seq<T> {
    if n <= 0 then [] else if n >= |s| then s else s[..n]
  }

  /** The first round in 1..n whose driver accepts within the window, or 0. */
  function FirstAcceptance(cfg: Config, env: Env, trip: TripId, n: nat): (r: nat)
    ensures r <= n
    ensures r > 0 ==> Accepts(cfg, env, trip, r)
    ensures forall k :: 1 <= k <= n && (r == 0 || k < r) ==> !Accepts(cfg, env, trip, k)
  {
    if n == 0 then 0
    else
      var r := FirstAcceptance(cfg, env, trip, n - 1);
      if r > 0 then r else if Accepts(cfg, env, trip, n) then n else 0
  }

  predicate SameStates(a: Drivers, b: Drivers) {
    a.Keys == b.Keys && forall d :: d in a ==> a[d].state == b[d].state
  }

  /** a differs from b in one driver only, AVAILABLE in b and in state s in a. */
  predicate OnlyMoved(a: Drivers, b: Drivers, d: DriverId, s: DriverState) {
    && a.Keys == b.Keys && d in b && b[d].state == Available && a[d].state == s
    && forall x :: x in a && x != d ==> a[x].state == b[x].state
  }

  predicate Refused(cfg: Config, env: Env, trip: TripId, n: nat) {
    forall r :: 1 <= r <= n ==> !Accepts(cfg, env, trip, r)
  }

  function Asked(drivers: Drivers, ids: seq<DriverId>, i: nat): nat
    requires i <= |ids|
  {
    |Willing(drivers, ids[..i])|
  }

  predicate Pending(cfg: Config, run: Run, db: Db)
    requires run.i < |run.candidates|
  {
    && run.trip in db.offers.offers
    && var o := db.offers.offers[run.trip];
       o.driver == run.candidates[run.i] && o.state == OfferPending
       && o.expiresAt == run.openedAt + cfg.window + OFFER_RECORD_GRACE
  }

  /** Every candidate before i has a record. */
  predicate Known(drivers: Drivers, ids: seq<DriverId>, i: nat) {
    forall j :: 0 <= j < i && j < |ids| ==> ids[j] in drivers
  }

  /** Round `rounds` is with candidate i, and only that driver has moved, to s. */
  predicate Holding(db0: Db, run: Run, db: Db, s: DriverState)
    requires run.i < |run.candidates|
  {
    && InState(db, run.trip, TripOffered)
    && OnlyMoved(db.drivers, db0.drivers, run.candidates[run.i], s)
    && run.rounds == Asked(db0.drivers, run.candidates, run.i + 1) && Known(db0.drivers, run.candidates, run.i + 1)
  }

  predicate Exhausted(cfg: Config, env: Env, db0: Db, run: Run, db: Db) {
    && SameStates(db.drivers, db0.drivers)
    && Refused(cfg, env, run.trip, run.rounds)
    && run.rounds == |Take(Willing(db0.drivers, run.candidates), cfg.maxRounds)|
    && run.i <= |run.candidates| && (run.i == |run.candidates| || run.rounds >= cfg.maxRounds)
    && run.rounds == Asked(db0.drivers, run.candidates, run.i) && Known(db0.drivers, run.candidates, run.i)
  }

  predicate MatchedFirst(cfg: Config, env: Env, db0: Db, run: Run, db: Db, d: DriverId) {
    var offers := Take(Willing(db0.drivers, run.candidates), cfg.maxRounds);
    && 1 <= run.rounds <= |offers| && offers[run.rounds - 1] == d
    && Accepts(cfg, env, run.trip, run.rounds) && Refused(cfg, env, run.trip, run.rounds - 1)
    && OnlyMoved(db.drivers, db0.drivers, d, EnRoute)
    && InState(db, run.trip, TripMatched) && db.trips.trips[run.trip].matchedDriver == Some(d)
    && run.i < |run.candidates| && run.rounds == Asked(db0.drivers, run.candidates, run.i + 1)
    && Known(db0.drivers, run.candidates, run.i + 1)
  }

  /** Candidate i has no record, and the Run gets to it: nobody before it accepts, and rounds are left. */
  predicate ReachesMissing(cfg: Config, env: Env, drivers: Drivers, trip: TripId, ids: seq<DriverId>, i: nat) {
    i < |ids| && ids[i] !in drivers
    && Asked(drivers, ids, i) < cfg.maxRounds && Refused(cfg, env, trip, Asked(drivers, ids, i))
  }

  /** Everything that can make a Run fail when nothing else touches the stores. */
  ghost predicate Excused(cfg: Config, env: Env, db0: Db, run: Run, e: Err) {
    match e
    case Io => true
    case TripNotFound => run.trip !in db0.trips.trips
    case TripAlreadyTerminal(s) => Terminal(s) && InState(db0, run.trip, s)
    case DriverNotFound => exists i :: ReachesMissing(cfg, env, db0.drivers, run.trip, run.candidates, i)
    case _ => false
  }

  ghost predicate Alone(cfg: Config, env: Env, db0: Db, run: Run, db: Db) {
    && Counted(cfg, run)
    && match run.pc
       case Load => db == db0
       case MarkOffered => db == db0 && InState(db, run.trip, TripRequested)
       case Claim =>
         && InState(db, run.trip, TripOffered) && SameStates(db.drivers, db0.drivers)
         && run.rounds == Asked(db0.drivers, run.candidates, run.i) && Refused(cfg, env, run.trip, run.rounds)
         && Known(db0.drivers, run.candidates, run.i)
       case Open => Holding(db0, run, db, Offered) && Refused(cfg, env, run.trip, run.rounds - 1)
       case Await(_) =>
         && Holding(db0, run, db, Offered) && Refused(cfg, env, run.trip, run.rounds - 1)
         && Pending(cfg, run, db) && db.now == run.openedAt
       case Settle(resp) =>
         && Holding(db0, run, db, Offered) && Refused(cfg, env, run.trip, run.rounds - 1)
         && Pending(cfg, run, db) && db.now <= run.openedAt + cfg.window
         && resp == Hears(cfg, env.answers(run.trip, run.rounds)).0
       case Engage =>
         && Holding(db0, run, db, Offered) && Refused(cfg, env, run.trip, run.rounds - 1)
         && Accepts(cfg, env, run.trip, run.rounds)
       case Commit =>
         && Holding(db0, run, db, EnRoute) && Refused(cfg, env, run.trip, run.rounds - 1)
         && Accepts(cfg, env, run.trip, run.rounds)
       case Release => Holding(db0, run, db, Offered) && Refused(cfg, env, run.trip, run.rounds)
       case Pause(_) =>
         && InState(db, run.trip, TripOffered) && SameStates(db.drivers, db0.drivers)
         && run.rounds == Asked(db0.drivers, run.candidates, run.i + 1) && Refused(cfg, env, run.trip, run.rounds)
         && Known(db0.drivers, run.candidates, run.i + 1)
       case GiveUp =>
         && (InState(db, run.trip, TripOffered) || InState(db, run.trip, TripRequested))
         && Exhausted(cfg, env, db0, run, db)
       case Done(Matched(d)) => MatchedFirst(cfg, env, db0, run, db, d)
       case Done(Unmatched) => InState(db, run.trip, TripUnfulfilled) && Exhausted(cfg, env, db0, run, db)
       case Done(Failed(e)) => Excused(cfg, env, db0, run, e)
  }

  lemma {:induction false} WillingSplits(drivers: Drivers, a: seq<DriverId>, b: seq<DriverId>)
    ensures Willing(drivers, a + b) == Willing(drivers, a) + Willing(drivers, b)
  {
    if b == [] {
      assert a + b == a;
    } else {
      assert (a + b)[..|a + b| - 1] == a + b[..|b| - 1];
      WillingSplits(drivers, a, b[..|b| - 1]);
    }
  }

  /** Scanning candidate i adds it to the offers exactly when it is available, and at that place. */
  lemma AskedSteps(drivers: Drivers, ids: seq<DriverId>, i: nat)
    requires i < |ids|
    ensures var willing := ids[i] in drivers && drivers[ids[i]].state == Available;
            && Asked(drivers, ids, i + 1) == Asked(drivers, ids, i) + (if willing then 1 else 0)
            && Asked(drivers, ids, i + 1) <= |Willing(drivers, ids)|
            && (willing ==> Willing(drivers, ids)[Asked(drivers, ids, i)] == ids[i])
  {
    assert ids[..i + 1][..i] == ids[..i];
    assert ids == ids[..i + 1] + ids[i + 1..];
    WillingSplits(drivers, ids[..i + 1], ids[i + 1..]);
  }

  lemma AskedEnds(drivers: Drivers, ids: seq<DriverId>)
    ensures Asked(drivers, ids, 0) == 0
    ensures Asked(drivers, ids, |ids|) == |Willing(drivers, ids)|
  {
    assert ids[..|ids|] == ids;
  }

  /** Leaving the loop body with `rounds` offers made among the first i candidates. */
  lemma HeadIsAlone(cfg: Config, env: Env, db0: Db, run: Run, db: Db, i: nat)
    requires i <= |run.candidates| && (run.rounds <= cfg.maxRounds || run.rounds == 0)
    requires InState(db, run.trip, TripOffered) && SameStates(db.drivers, db0.drivers)
    requires run.rounds == Asked(db0.drivers, run.candidates, i) && Refused(cfg, env, run.trip, run.rounds)
    requires Known(db0.drivers, run.candidates, i)
    requires run.rounds < cfg.maxRounds ==> run.backoff == Backoff(cfg, run.rounds + 1) || i == |run.candidates|
    ensures Alone(cfg, env, db0, Head(cfg, run, i), db)
  {
    AskedEnds(db0.drivers, run.candidates);
    if i < |run.candidates| {
      AskedSteps(db0.drivers, run.candidates, i);
    }
  }

  lemma StartingAlone(cfg: Config, env: Env, db0: Db, run: Run, db: Db, resp: Response, down: bool)
    requires Alone(cfg, env, db0, run, db)
    requires run.pc.Load? || run.pc.MarkOffered?
    ensures var t := Step(cfg, run, db, resp, down); Alone(cfg, env, db0, t.0, t.1)
  {
    var (run', db') := Step(cfg, run, db, resp, down);
    AskedEnds(db0.drivers, run.candidates);
    if !run'.pc.Done? && !run'.pc.MarkOffered? && run.candidates != [] {
      HeadIsAlone(cfg, env, db0, run', db', 0);
    }
  }

  lemma WinningAlone(cfg: Config, env: Env, db0: Db, run: Run, db: Db, resp: Response, down: bool)
    requires Alone(cfg, env, db0, run, db) && run.pc.Claim?
    requires run.candidates[run.i] in db.drivers && db.drivers[run.candidates[run.i]].state == Available
    ensures var t := Step(cfg, run, db, resp, down); Alone(cfg, env, db0, t.0, t.1)
  {
    StepKeepsCounted(cfg, run, db, resp, down);
    AskedSteps(db0.drivers, run.candidates, run.i);
  }

  lemma LosingAlone(cfg: Config, env: Env, db0: Db, run: Run, db: Db, resp: Response, down: bool)
    requires Alone(cfg, env, db0, run, db) && run.pc.Claim?
    requires !(run.candidates[run.i] in db.drivers && db.drivers[run.candidates[run.i]].state == Available)
    ensures var t := Step(cfg, run, db, resp, down); Alone(cfg, env, db0, t.0, t.1)
  {
    AskedSteps(db0.drivers, run.candidates, run.i);
    if !down && run.candidates[run.i] in db.drivers {
      HeadIsAlone(cfg, env, db0, run.(steps := run.steps + 1), db, run.i + 1);
    } else if !down {
      assert ReachesMissing(cfg, env, db0.drivers, run.trip, run.candidates, run.i);
    }
  }

  lemma ClaimingAlone(cfg: Config, env: Env, db0: Db, run: Run, db: Db, resp: Response, down: bool)
    requires Alone(cfg, env, db0, run, db) && run.pc.Claim?
    ensures var t := Step(cfg, run, db, resp, down); Alone(cfg, env, db0, t.0, t.1)
  {
    if run.candidates[run.i] in db.drivers && db.drivers[run.candidates[run.i]].state == Available {
      WinningAlone(cfg, env, db0, run, db, resp, down);
    } else {
      LosingAlone(cfg, env, db0, run, db, resp, down);
    }
  }

  lemma OpeningAlone(cfg: Config, env: Env, db0: Db, run: Run, db: Db, resp: Response, down: bool)
    requires Alone(cfg, env, db0, run, db)
    requires run.pc.Open?
    ensures var t := Step(cfg, run, db, resp, down); Alone(cfg, env, db0, t.0, t.1)
  {
    StepKeepsCounted(cfg, run, db, resp, down);
  }

  lemma AnswerAlone(cfg: Config, env: Env, db0: Db, run: Run, db: Db, down: bool)
    requires Alone(cfg, env, db0, run, db) && run.pc.Await?
    ensures var resp := Hears(cfg, env.answers(run.trip, run.rounds)).0;
            var t := Step(cfg, run, db.(now := ClockAt(cfg, env, run, db.now)), resp, down);
            Alone(cfg, env, db0, t.0, t.1)
  {
  }

  lemma SettlingAlone(cfg: Config, env: Env, db0: Db, run: Run, db: Db, resp: Response, down: bool)
    requires Alone(cfg, env, db0, run, db) && run.pc.Settle?
    ensures var t := Step(cfg, run, db, resp, down); Alone(cfg, env, db0, t.0, t.1)
  {
    StepKeepsCounted(cfg, run, db, resp, down);
  }

  lemma EngagingAlone(cfg: Config, env: Env, db0: Db, run: Run, db: Db, resp: Response, down: bool)
    requires Alone(cfg, env, db0, run, db) && run.pc.Engage?
    ensures var t := Step(cfg, run, db, resp, down); Alone(cfg, env, db0, t.0, t.1)
  {
    StepKeepsCounted(cfg, run, db, resp, down);
  }

  lemma CommitAlone(cfg: Config, env: Env, db0: Db, run: Run, db: Db, resp: Response, down: bool)
    requires Alone(cfg, env, db0, run, db)
    requires run.pc.Commit?
    ensures var t := Step(cfg, run, db, resp, down); Alone(cfg, env, db0, t.0, t.1)
  {
    StepKeepsCounted(cfg, run, db, resp, down);
    AskedSteps(db0.drivers, run.candidates, run.i);
  }

  lemma ReleasingAlone(cfg: Config, env: Env, db0: Db, run: Run, db: Db, resp: Response, down: bool)
    requires Alone(cfg, env, db0, run, db)
    requires run.pc.Release?
    ensures var t := Step(cfg, run, db, resp, down); Alone(cfg, env, db0, t.0, t.1)
  {
    StepKeepsCounted(cfg, run, db, resp, down);
    var (run', db') := Step(cfg, run, db, resp, down);
    if run'.pc.Claim? || run'.pc.GiveUp? {
      HeadIsAlone(cfg, env, db0, run', db', run.i + 1);
    }
  }

  lemma ResumingAlone(cfg: Config, env: Env, db0: Db, run: Run, db: Db, resp: Response, down: bool)
    requires Alone(cfg, env, db0, run, db)
    requires run.pc.Pause? || run.pc.GiveUp?
    ensures var t := Step(cfg, run, db, resp, down); Alone(cfg, env, db0, t.0, t.1)
  {
    StepKeepsCounted(cfg, run, db, resp, down);
    var (run', db') := Step(cfg, run, db, resp, down);
    if run.pc.Pause? && !run'.pc.Done? {
      BackoffSteps(cfg, run.rounds);
      HeadIsAlone(cfg, env, db0, run', db', run.i + 1);
    }
  }

  lemma TimeKeepsAlone(cfg: Config, env: Env, db0: Db, run: Run, db: Db, now: nat)
    requires Alone(cfg, env, db0, run, db)
    requires run.pc.Pause? || now == db.now
    ensures Alone(cfg, env, db0, run, db.(now := now))
  {
  }

  lemma MoveAlone(cfg: Config, env: Env, db0: Db, run: Run, db: Db)
    requires Alone(cfg, env, db0, run, db)
    ensures var t := Move(cfg, env, (run, db)); Alone(cfg, env, db0, t.0, t.1)
  {
    var resp, down := Hears(cfg, env.answers(run.trip, run.rounds)).0, env.fails(run.steps);
    var db1 := db.(now := ClockAt(cfg, env, run, db.now));
    if run.pc.Done? {
    } else if run.pc.Await? {
      AnswerAlone(cfg, env, db0, run, db, down);
    } else {
      TimeKeepsAlone(cfg, env, db0, run, db, ClockAt(cfg, env, run, db.now));
      match run.pc
      case Load => StartingAlone(cfg, env, db0, run, db1, resp, down);
      case MarkOffered => StartingAlone(cfg, env, db0, run, db1, resp, down);
      case Claim => ClaimingAlone(cfg, env, db0, run, db1, resp, down);
      case Open => OpeningAlone(cfg, env, db0, run, db1, resp, down);
      case Settle(_) => SettlingAlone(cfg, env, db0, run, db1, resp, down);
      case Engage => EngagingAlone(cfg, env, db0, run, db1, resp, down);
      case Commit => CommitAlone(cfg, env, db0, run, db1, resp, down);
      case Release => ReleasingAlone(cfg, env, db0, run, db1, resp, down);
      case Pause(_) => ResumingAlone(cfg, env, db0, run, db1, resp, down);
      case GiveUp => ResumingAlone(cfg, env, db0, run, db1, resp, down);
    }
  }

  lemma {:induction false} StartedAlone(
    cfg: Config, env: Env, job: Job, db0: Db, n: nat)
    ensures var s := Started(cfg, env, job, db0, n); Alone(cfg, env, db0, s.0, s.1)
  {
    if n > 0 {
      StartedAlone(cfg, env, job, db0, n - 1);
      var s := Started(cfg, env, job, db0, n - 1);
      MoveAlone(cfg, env, db0, s.0, s.1);
    }
  }

  /** What becomes of a trip offered to ids: the first MaxRounds of those AVAILABLE are asked, in order, until one
      accepts; that driver alone goes EN_ROUTE and the trip is theirs, or nobody accepts and the trip is UNFULFILLED. */
  predicate Decided(cfg: Config, env: Env, trip: TripId, ids: seq<DriverId>, before: Drivers, after: Db) {
    var offers := Take(Willing(before, ids), cfg.maxRounds);
    var winner := FirstAcceptance(cfg, env, trip, |offers|);
    if winner > 0 then
      && OnlyMoved(after.drivers, before, offers[winner - 1], EnRoute)
      && InState(after, trip, TripMatched) && after.trips.trips[trip].matchedDriver == Some(offers[winner - 1])
    else
      SameStates(after.drivers, before) && InState(after, trip, TripUnfulfilled)
  }

  /** A finished nil-error Run is decided by the candidates AVAILABLE at its start and the answers alone. */
  lemma RunFindsFirstAcceptor(cfg: Config, env: Env, job: Job, db0: Db, n: nat)
    requires var run := Started(cfg, env, job, db0, n).0; run.pc.Done? && !run.pc.result.Failed?
    ensures var (run, db) := Started(cfg, env, job, db0, n);
            var offers := Take(Willing(db0.drivers, job.candidates), cfg.maxRounds);
            var winner := FirstAcceptance(cfg, env, job.trip, |offers|);
            && Decided(cfg, env, job.trip, job.candidates, db0.drivers, db)
            && run.pc.result == (if winner > 0 then Matched(offers[winner - 1]) else Unmatched)
            && run.rounds == (if winner > 0 then winner else |offers|)
  {
    StartedAlone(cfg, env, job, db0, n);
    StartedKeepsRequest(cfg, env, job, db0, n);
    FinishedAlone(cfg, env, db0, Started(cfg, env, job, db0, n).0, Started(cfg, env, job, db0, n).1);
  }

  lemma FinishedAlone(cfg: Config, env: Env, db0: Db, run: Run, db: Db)
    requires Alone(cfg, env, db0, run, db) && run.pc.Done? && !run.pc.result.Failed?
    ensures var offers := Take(Willing(db0.drivers, run.candidates), cfg.maxRounds);
            var winner := FirstAcceptance(cfg, env, run.trip, |offers|);
            && Decided(cfg, env, run.trip, run.candidates, db0.drivers, db)
            && run.pc.result == (if winner > 0 then Matched(offers[winner - 1]) else Unmatched)
            && run.rounds == (if winner > 0 then winner else |offers|)
  {
    var offers := Take(Willing(db0.drivers, run.candidates), cfg.maxRounds);
    var winner := FirstAcceptance(cfg, env, run.trip, |offers|);
    if run.pc.result.Matched? {
      assert !(winner > 0 && winner < run.rounds);
    }
  }

  /** Alone, a Run fails only for an I/O error, a missing or finished trip, or a candidate without a record that it gets
      to: stale offers, expired offers and lost drivers are other processes' doing. */
  lemma RunFailsOnlyForCause(cfg: Config, env: Env, job: Job, db0: Db, n: nat)
    requires Started(cfg, env, job, db0, n).0.pc.Done?
    requires Started(cfg, env, job, db0, n).0.pc.result.Failed?
    ensures var run := Started(cfg, env, job, db0, n).0; Excused(cfg, env, db0, run, run.pc.result.err)
    ensures Started(cfg, env, job, db0, n).0.pc.result.err == Io ==> exists k :: env.fails(k)
  {
    StartedAlone(cfg, env, job, db0, n);
    if forall k :: !env.fails(k) {
      NoFaultsNoIo(cfg, env, job, db0, n);
    }
  }

  lemma MoveWithoutFaults(cfg: Config, env: Env, s: (Run, Db))
    requires InRange(s.0) && !env.fails(s.0.steps) && s.0.pc != Done(Failed(Io))
    ensures Move(cfg, env, s).0.pc != Done(Failed(Io))
  {
  }

  lemma {:induction false} NoFaultsNoIo(
    cfg: Config, env: Env, job: Job, db0: Db, n: nat)
    requires forall k :: !env.fails(k)
    ensures Started(cfg, env, job, db0, n).0.pc != Done(Failed(Io))
  {
    if n > 0 {
      NoFaultsNoIo(cfg, env, job, db0, n - 1);
      MoveWithoutFaults(cfg, env, Started(cfg, env, job, db0, n - 1));
    }
  }

  lemma AskedGrows(drivers: Drivers, ids: seq<DriverId>, i: nat, j: nat)
    requires i <= j <= |ids|
    ensures Asked(drivers, ids, i) <= Asked(drivers, ids, j)
  {
    assert ids[..j] == ids[..i] + ids[i..j];
    WillingSplits(drivers, ids[..i], ids[i..j]);
  }

  /** A nil-error Run has not got to a candidate without a record. */
  lemma NilErrorReachesNoneMissing(cfg: Config, env: Env, db0: Db, run: Run, db: Db, i: nat)
    requires Alone(cfg, env, db0, run, db) && run.pc.Done? && !run.pc.result.Failed?
    ensures !ReachesMissing(cfg, env, db0.drivers, run.trip, run.candidates, i)
  {
    if ReachesMissing(cfg, env, db0.drivers, run.trip, run.candidates, i) {
      var reached := if run.pc.result.Matched? then run.i + 1 else run.i;
      assert reached <= i;
      AskedGrows(db0.drivers, run.candidates, reached, i);
    }
  }

  /** And without I/O errors it does fail for each of these reasons. */
  lemma RunFailsIff(cfg: Config, env: Env, job: Job, db0: Db, n: nat)
    requires Started(cfg, env, job, db0, n).0.pc.Done? && forall k :: !env.fails(k)
    ensures Started(cfg, env, job, db0, n).0.pc.result.Failed?
            <==> || job.trip !in db0.trips.trips || Terminal(db0.trips.trips[job.trip].state)
                 || exists i :: ReachesMissing(cfg, env, db0.drivers, job.trip, job.candidates, i)
  {
    var (run, db) := Started(cfg, env, job, db0, n);
    StartedAlone(cfg, env, job, db0, n);
    StartedKeepsRequest(cfg, env, job, db0, n);
    StartedFinds(cfg, env, job, db0, n);
    NoFaultsNoIo(cfg, env, job, db0, n);
    if !run.pc.result.Failed? {
      forall i: nat
        ensures !ReachesMissing(cfg, env, db0.drivers, job.trip, job.candidates, i)
      {
        NilErrorReachesNoneMissing(cfg, env, db0, run, db, i);
      }
    }
  }
}
