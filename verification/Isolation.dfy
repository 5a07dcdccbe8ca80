/** A Run with the stores to itself: what it computes, how long it waits, and that it ends. */
module Isolation {
  import opened StateMachine
  import opened StoreSpec
  import opened Protocol

  /** What the outside decides: the answer of each round, and which steps fail with an I/O error. */
  datatype Env = Env(answers: (TripId, nat) -> Answer, fails: nat -> bool)

  /** awaitResponse: the response returned, and how long it took. */
  function Hears(cfg: Config, a: Answer): (h: (Response, nat))
    ensures h.1 <= cfg.window
  {
    match a
    case Silence => (NoResponse, cfg.window)
    case Reply(resp, after) => if after <= cfg.window then (resp, after) else (NoResponse, cfg.window)
  }

  predicate Accepts(cfg: Config, env: Env, trip: TripId, round: nat) {
    Hears(cfg, env.answers(trip, round)).0 == Accepted
  }

  /** The clock when the step takes place: only awaitResponse and sleep let time pass. */
  function ClockAt(cfg: Config, env: Env, run: Run, now: nat): (t: nat)
    ensures t >= now
  {
    if run.pc.Await? then now + Hears(cfg, env.answers(run.trip, run.rounds)).1
    else if run.pc.Pause? && !env.fails(run.steps) then now + run.backoff
    else now
  }

  function Move(cfg: Config, env: Env, s: (Run, Db)): (t: (Run, Db))
    requires InRange(s.0)
    ensures InRange(t.0)
  {
    if s.0.pc.Done? then s
    else Step(cfg, s.0, s.1.(now := ClockAt(cfg, env, s.0, s.1.now)),
              Hears(cfg, env.answers(s.0.trip, s.0.rounds)).0, env.fails(s.0.steps))
  }

  /** The Run and the stores n steps on. */
  function After(cfg: Config, env: Env, run: Run, db: Db, n: nat): (s: (Run, Db))
    requires InRange(run)
    ensures InRange(s.0)
  {
    if n == 0 then (run, db) else Move(cfg, env, After(cfg, env, run, db, n - 1))
  }

  function Started(cfg: Config, env: Env, job: Job, db: Db, n: nat): (s: (Run, Db)) {
    After(cfg, env, Begin(job, cfg.base), db, n)
  }

  /** path is the machine's execution of job from db. The trigger keeps Started folded where only path is named. */
  ghost predicate IsPath(cfg: Config, env: Env, job: Job, db: Db, path: nat -> (Run, Db)) {
    forall n: nat {:trigger Started(cfg, env, job, db, n)} :: path(n) == Started(cfg, env, job, db, n)
  }

  /** Each step of path is the machine's. */
  ghost predicate IsMachine(cfg: Config, env: Env, path: nat -> (Run, Db)) {
    exists job, db :: IsPath(cfg, env, job, db, path)
  }

  lemma PathMoves(cfg: Config, env: Env, path: nat -> (Run, Db), n: nat)
    requires IsMachine(cfg, env, path)
    ensures InRange(path(n).0) && path(n + 1) == Move(cfg, env, path(n))
  {
    var job, db :| IsPath(cfg, env, job, db, path);
    assert path(n) == Started(cfg, env, job, db, n);
    assert path(n + 1) == Started(cfg, env, job, db, n + 1);
  }

  lemma MoveKeepsLocal(cfg: Config, env: Env, s: (Run, Db))
    requires Local(cfg, s.0)
    ensures Local(cfg, Move(cfg, env, s).0)
  {
    if !s.0.pc.Done? {
      StepKeepsLocal(cfg, s.0, s.1.(now := ClockAt(cfg, env, s.0, s.1.now)),
                     Hears(cfg, env.answers(s.0.trip, s.0.rounds)).0, env.fails(s.0.steps));
    }
  }

  /** What holds at the start and is kept by each move holds throughout. */
  lemma {:induction false} HoldsThroughout(
    cfg: Config, env: Env, run: Run, db: Db, holds: ((Run, Db), nat) -> bool, n: nat)
    requires InRange(run) && holds((run, db), 0)
    requires forall s: (Run, Db), k: nat :: InRange(s.0) && holds(s, k) ==> holds(Move(cfg, env, s), k + 1)
    ensures holds(After(cfg, env, run, db, n), n)
  {
    if n > 0 {
      HoldsThroughout(cfg, env, run, db, holds, n - 1);
    }
  }

  predicate SameRequest(run: Run, other: Run) {
    run.trip == other.trip && run.cell == other.cell && run.candidates == other.candidates
  }

  lemma MoveKeepsRequest(cfg: Config, env: Env, s: (Run, Db))
    requires InRange(s.0)
    ensures SameRequest(Move(cfg, env, s).0, s.0)
  {
  }

  lemma {:induction false} StartedKeepsRequest(cfg: Config, env: Env, job: Job, db: Db, n: nat)
    ensures SameRequest(Started(cfg, env, job, db, n).0, Begin(job, cfg.base))
  {
    if n > 0 {
      StartedKeepsRequest(cfg, env, job, db, n - 1);
      MoveKeepsRequest(cfg, env, Started(cfg, env, job, db, n - 1));
    }
  }

  lemma {:induction false} StartedIsLocal(cfg: Config, env: Env, job: Job, db: Db, n: nat)
    ensures Local(cfg, Started(cfg, env, job, db, n).0)
  {
    if n == 0 {
      BeginIsLocal(cfg, job);
    } else {
      StartedIsLocal(cfg, env, job, db, n - 1);
      MoveKeepsLocal(cfg, env, Started(cfg, env, job, db, n - 1));
    }
  }

  /** What the trip's record says when the Run begins is what the Run finds. */
  lemma {:induction false} StartedFinds(cfg: Config, env: Env, job: Job, db: Db, n: nat)
    ensures var (run, db') := Started(cfg, env, job, db, n);
            && (run.pc.Load? ==> db'.trips == db.trips && run.trip == job.trip && run.found.None?)
            && (run.found.Some? ==>
                  && job.trip in db.trips.trips && run.found == Some(db.trips.trips[job.trip].state)
                  && !Terminal(run.found.value))
            && (run.found.None? ==> run.pc.Load? || (run.pc.Done? && run.pc.result.Failed? && run.trace == []))
            && (run.pc.Load? ==> run.trace == [])
  {
    if n > 0 {
      StartedFinds(cfg, env, job, db, n - 1);
      var s := Started(cfg, env, job, db, n - 1);
      var t := Move(cfg, env, s);
      assert Started(cfg, env, job, db, n) == t;
      MoveFinds(cfg, env, s);
    }
  }

  lemma MoveFinds(cfg: Config, env: Env, s: (Run, Db))
    requires InRange(s.0) && (s.0.pc.Load? ==> s.0.trace == [] && s.0.found.None?)
    ensures var t := Move(cfg, env, s);
            && (s.0.pc.Load? ==>
                  if s.0.trip in s.1.trips.trips && t.0.found.Some?
                  then && t.0.found == Some(s.1.trips.trips[s.0.trip].state) && !Terminal(t.0.found.value)
                       && !t.0.pc.Load?
                  else t.0.found.None? && t.0.pc.Done? && t.0.pc.result.Failed? && t.0.trace == [])
            && (!s.0.pc.Load? ==> t.0.found == s.0.found && !t.0.pc.Load? && (s.0.pc.Done? ==> t == s))
  {
  }

  /** The state the trip is in when the Run begins. */
  function FoundIn(db: Db, trip: TripId): Option<TripState> {
    if trip in db.trips.trips then Some(db.trips.trips[trip].state) else None
  }

  /** The events of a Run stopped anywhere, by an error or a crash, are a prefix the grammar accepts without a trip
      outcome; those of a nil-error Run are a whole sentence ending in the outcome it returns. The grammar begins where
      the state the trip was in calls for. */
  lemma EventsFollowTheGrammar(cfg: Config, env: Env, job: Job, db: Db, n: nat)
    ensures var run := Started(cfg, env, job, db, n).0;
            var first := FirstPhase(FoundIn(db, job.trip));
            var heard := Parse(first, job.trip, job.cell, job.candidates, cfg.maxRounds, run.trace);
            && heard.Some?
            && (run.pc.Done? && !run.pc.result.Failed? ==> heard.value == Closed(run.pc.result))
            && (run.pc.Done? && run.pc.result.Failed? ==> !heard.value.Closed?)
            && (!run.pc.Done? ==> !heard.value.Closed?)
  {
    StartedIsLocal(cfg, env, job, db, n);
    StartedKeepsRequest(cfg, env, job, db, n);
    StartedFinds(cfg, env, job, db, n);
  }

  /** A REQUESTED trip changes state in the step that publishes OFFERED. */
  predicate Marks(s: (Run, Db)) {
    var (run, db) := s;
    && run.candidates != [] && run.trip in db.trips.trips
    && (db.trips.trips[run.trip].state == TripRequested <==> run.trace == [])
    && (run.trace == [] ==> run.pc.Load? || run.pc.MarkOffered? || (run.pc.Done? && run.pc.result.Failed?))
    && (run.pc.Load? || run.pc.MarkOffered? ==> run.trace == [])
  }

  lemma MoveMarks(cfg: Config, env: Env, s: (Run, Db), t: (Run, Db))
    requires InRange(s.0) && Marks(s) && t == Move(cfg, env, s)
    ensures Marks(t)
  {
  }

  lemma StartedMarks(cfg: Config, env: Env, job: Job, db: Db, n: nat)
    requires FoundIn(db, job.trip) == Some(TripRequested) && job.candidates != []
    ensures Marks(Started(cfg, env, job, db, n))
  {
    var holds := (s: (Run, Db), k: nat) => Marks(s);
    forall s: (Run, Db), k: nat | InRange(s.0) && holds(s, k)
      ensures holds(Move(cfg, env, s), k + 1)
    {
      MoveMarks(cfg, env, s, Move(cfg, env, s));
    }
    HoldsThroughout(cfg, env, Begin(job, cfg.base), db, holds, n);
  }

  /** OFFERED is announced by exactly the Runs that find their trip REQUESTED with candidates and get past marking it,
      and by those once, before anything else. */
  lemma OfferedIsAnnouncedIff(cfg: Config, env: Env, job: Job, db: Db, n: nat)
    ensures var (run, db') := Started(cfg, env, job, db, n);
            && ((exists k :: 0 <= k < |run.trace| && Announces(run.trace[k]))
                <==> FoundIn(db, job.trip) == Some(TripRequested) && job.candidates != []
                     && FoundIn(db', job.trip) != Some(TripRequested))
            && forall k :: 0 <= k < |run.trace| && Announces(run.trace[k]) ==>
                 k == 0 && run.trace[k] == TripEvent(job.trip, TripOffered, job.cell, None)
  {
    EventsFollowTheGrammar(cfg, env, job, db, n);
    var trace := Started(cfg, env, job, db, n).0.trace;
    AnnouncedIff(FirstPhase(FoundIn(db, job.trip)), job.trip, job.cell, job.candidates, cfg.maxRounds, trace);
    if FoundIn(db, job.trip) == Some(TripRequested) && job.candidates != [] {
      StartedMarks(cfg, env, job, db, n);
      StartedKeepsRequest(cfg, env, job, db, n);
    }
  }

  // ---- termination ---------------------------------------------------------

  function Rank(pc: Pc): nat {
    match pc
    case Load => 10
    case MarkOffered => 9
    case Claim => 8
    case Open => 7
    case Await(_) => 6
    case Settle(_) => 5
    case Engage => 4
    case Commit => 3
    case Release => 4
    case Pause(_) => 3
    case GiveUp => 1
    case Done(_) => 0
  }

  function Left(run: Run): nat
    requires InRange(run)
  {
    if run.pc.Done? then 0
    else if run.pc.GiveUp? then 1
    else Rank(run.pc) + 10 * (if run.i < |run.candidates| then |run.candidates| - run.i else 0)
  }

  /** A number of steps no Run outlasts. */
  function StepBound(ids: seq<DriverId>): nat {
    10 * |ids| + 10
  }

  predicate Bounded(run: Run, n: nat)
    requires InRange(run)
  {
    && (run.pc.Done? || Left(run) + n <= StepBound(run.candidates))
    && (run.pc.Load? || run.pc.MarkOffered? ==> run.i == 0)
  }

  predicate BoundedAt(s: (Run, Db), n: nat) {
    InRange(s.0) && Bounded(s.0, n)
  }

  lemma MoveMakesProgress(cfg: Config, env: Env, s: (Run, Db), t: (Run, Db), n: nat)
    requires BoundedAt(s, n) && t == Move(cfg, env, s)
    ensures BoundedAt(t, n + 1)
  {
  }

  lemma StepsAreBounded(cfg: Config, env: Env, job: Job, db: Db, n: nat)
    ensures BoundedAt(Started(cfg, env, job, db, n), n)
  {
    var holds := (s: (Run, Db), k: nat) => BoundedAt(s, k);
    forall s: (Run, Db), k: nat | InRange(s.0) && holds(s, k)
      ensures holds(Move(cfg, env, s), k + 1)
    {
      MoveMakesProgress(cfg, env, s, Move(cfg, env, s), k);
    }
    HoldsThroughout(cfg, env, Begin(job, cfg.base), db, holds, n);
  }

  lemma {:induction false} DoneStaysDone(cfg: Config, env: Env, run: Run, db: Db, m: nat, n: nat)
    requires InRange(run) && m <= n && After(cfg, env, run, db, m).0.pc.Done?
    ensures After(cfg, env, run, db, n) == After(cfg, env, run, db, m)
    decreases n
  {
    if m < n {
      DoneStaysDone(cfg, env, run, db, m, n - 1);
    }
  }

  /** Run returns, whatever the answers and failures, and where it stops is the one final state of its steps. */
  lemma RunEnds(cfg: Config, env: Env, job: Job, db: Db, n: nat)
    requires n >= StepBound(job.candidates)
    ensures Started(cfg, env, job, db, n).0.pc.Done?
    ensures Started(cfg, env, job, db, n) == Started(cfg, env, job, db, StepBound(job.candidates))
  {
    StepsAreBounded(cfg, env, job, db, StepBound(job.candidates));
    StartedKeepsRequest(cfg, env, job, db, StepBound(job.candidates));
    DoneStaysDone(cfg, env, Begin(job, cfg.base), db, StepBound(job.candidates), n);
  }

  // ---- time ----------------------------------------------------------------

  /** The delays slept after rounds 1 to n. */
  function Slept(cfg: Config, n: nat): nat {
    if n == 0 then 0 else Slept(cfg, n - 1) + Backoff(cfg, n)
  }

  lemma {:induction false} SleptGrows(cfg: Config, m: nat, n: nat)
    requires m <= n
    ensures Slept(cfg, m) <= Slept(cfg, n)
    decreases n
  {
    if m < n {
      SleptGrows(cfg, m, n - 1);
    }
  }

  /** Waiting allowed for once r rounds are over and z of the delays between them slept. */
  function Spent(cfg: Config, r: nat, z: nat): nat {
    r * cfg.window + Slept(cfg, z)
  }

  /** Delays slept by a Run about to claim or to give up after r rounds. */
  function Sleeps(cfg: Config, r: nat): nat {
    if r < cfg.maxRounds || r == 0 then r else r - 1
  }

  predicate OnTime(cfg: Config, start: nat, s: (Run, Db)) {
    var run := s.0;
    var now := s.1.now;
    now >= start &&
    now - start <= match run.pc
                   case Load => 0
                   case MarkOffered => 0
                   case Claim => Spent(cfg, run.rounds, Sleeps(cfg, run.rounds))
                   case Open => if run.rounds == 0 then 0 else Spent(cfg, run.rounds - 1, run.rounds - 1)
                   case Await(_) => if run.rounds == 0 then 0 else Spent(cfg, run.rounds - 1, run.rounds - 1)
                   case GiveUp => Spent(cfg, run.rounds, Sleeps(cfg, run.rounds))
                   case Done(_) => Spent(cfg, run.rounds, Sleeps(cfg, run.rounds))
                   case _ => if run.rounds == 0 then 0 else Spent(cfg, run.rounds, run.rounds - 1)
  }

  lemma SpentSteps(cfg: Config, r: nat)
    ensures r >= 1 ==> Spent(cfg, r, r - 1) == Spent(cfg, r - 1, r - 1) + cfg.window
    ensures r >= 1 ==> Spent(cfg, r, r) == Spent(cfg, r, r - 1) + Backoff(cfg, r)
  {
    if r >= 1 {
      assert r * cfg.window == (r - 1) * cfg.window + cfg.window;
    }
  }

  lemma AskingIsOnTime(cfg: Config, env: Env, start: nat, s: (Run, Db))
    requires Counted(cfg, s.0) && OnTime(cfg, start, s)
    requires s.0.pc.Load? || s.0.pc.MarkOffered? || s.0.pc.Claim? || s.0.pc.Open? || s.0.pc.Await?
    ensures OnTime(cfg, start, Move(cfg, env, s))
  {
    SpentSteps(cfg, s.0.rounds);
    if s.0.rounds >= 1 {
      SleptGrows(cfg, s.0.rounds - 1, Sleeps(cfg, s.0.rounds));
    }
  }

  lemma SettlingIsOnTime(cfg: Config, env: Env, start: nat, s: (Run, Db))
    requires Counted(cfg, s.0) && OnTime(cfg, start, s)
    requires s.0.pc.Settle? || s.0.pc.Engage? || s.0.pc.Commit?
    ensures OnTime(cfg, start, Move(cfg, env, s))
  {
    SleptGrows(cfg, s.0.rounds - 1, Sleeps(cfg, s.0.rounds));
  }

  lemma ClosingIsOnTime(cfg: Config, env: Env, start: nat, s: (Run, Db))
    requires Counted(cfg, s.0) && OnTime(cfg, start, s)
    requires s.0.pc.Release? || s.0.pc.Pause? || s.0.pc.GiveUp? || s.0.pc.Done?
    ensures OnTime(cfg, start, Move(cfg, env, s))
  {
    SpentSteps(cfg, s.0.rounds);
    if s.0.rounds >= 1 {
      SleptGrows(cfg, s.0.rounds - 1, Sleeps(cfg, s.0.rounds));
    }
  }

  lemma SpentGrows(cfg: Config, r: nat, z: nat, r': nat, z': nat)
    requires r <= r' && z <= z'
    ensures Spent(cfg, r, z) <= Spent(cfg, r', z')
  {
    assert r * cfg.window <= r' * cfg.window;
    SleptGrows(cfg, z, z');
  }

  lemma OnTimeIsBounded(cfg: Config, start: nat, s: (Run, Db))
    requires OnTime(cfg, start, s) && (s.0.rounds <= cfg.maxRounds || s.0.rounds == 0)
    ensures start <= s.1.now
    ensures s.1.now - start <= if cfg.maxRounds <= 0 then 0 else Spent(cfg, cfg.maxRounds, cfg.maxRounds - 1)
  {
    var r := s.0.rounds;
    if cfg.maxRounds > 0 {
      SpentGrows(cfg, r, Sleeps(cfg, r), cfg.maxRounds, cfg.maxRounds - 1);
      if r >= 1 {
        SpentGrows(cfg, r - 1, r - 1, cfg.maxRounds, cfg.maxRounds - 1);
        SpentGrows(cfg, r, r - 1, cfg.maxRounds, cfg.maxRounds - 1);
      }
    }
  }

  /** However the rounds go, the waits add up to at most MaxRounds windows and the MaxRounds - 1 delays between them. */
  lemma WaitingIsBounded(
    cfg: Config, env: Env, job: Job, db: Db, n: nat)
    ensures var s := Started(cfg, env, job, db, n);
            && db.now <= s.1.now
            && s.1.now - db.now <= if cfg.maxRounds <= 0 then 0
                                   else Spent(cfg, cfg.maxRounds, cfg.maxRounds - 1)
  {
    StartedOnTime(cfg, env, job, db, n);
    StartedIsLocal(cfg, env, job, db, n);
    OnTimeIsBounded(cfg, db.now, Started(cfg, env, job, db, n));
  }

  lemma {:induction false} StartedOnTime(
    cfg: Config, env: Env, job: Job, db: Db, n: nat)
    ensures OnTime(cfg, db.now, Started(cfg, env, job, db, n))
  {
    if n > 0 {
      StartedOnTime(cfg, env, job, db, n - 1);
      StartedIsLocal(cfg, env, job, db, n - 1);
      var s := Started(cfg, env, job, db, n - 1);
      if s.0.pc.Load? || s.0.pc.MarkOffered? || s.0.pc.Claim? || s.0.pc.Open? || s.0.pc.Await? {
        AskingIsOnTime(cfg, env, db.now, s);
      } else if s.0.pc.Settle? || s.0.pc.Engage? || s.0.pc.Commit? {
        SettlingIsOnTime(cfg, env, db.now, s);
      } else {
        ClosingIsOnTime(cfg, env, db.now, s);
      }
    }
  }

  /** The wait the load generator leaves after it stops asking for trips. */
  const TRAILING_BUFFER: int := DEFAULT_CONFIG.window * DEFAULT_CONFIG.maxRounds + 30 * SECOND

  lemma DefaultConfigSpends()
    ensures Spent(DEFAULT_CONFIG, 5, 4) == 90 * SECOND
  {
    var c := DEFAULT_CONFIG;
    assert Pow2(1) == 2 && Pow2(2) == 4 && Pow2(3) == 8;
    assert Slept(c, 1) == Backoff(c, 1) == 1 * SECOND;
    assert Slept(c, 2) == 3 * SECOND;
    assert Slept(c, 3) == 7 * SECOND;
    assert Slept(c, 4) == 15 * SECOND;
  }

  lemma DefaultConfigWaitsAtMostNinetySeconds(
    env: Env, job: Job, db: Db, n: nat)
    ensures Started(DEFAULT_CONFIG, env, job, db, n).1.now - db.now <= 90 * SECOND < TRAILING_BUFFER
  {
    WaitingIsBounded(DEFAULT_CONFIG, env, job, db, n);
    DefaultConfigSpends();
  }
}
