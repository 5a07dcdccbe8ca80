/** Any number of Runs, driver pings, crashes and hash expiries over one shared store, interleaved store call by store
    call. The one assumption is that each store call is a single atomic step. */
module Interleaving {
  import opened StateMachine
  import opened StoreSpec
  import opened Protocol

  datatype Sys = Sys(db: Db, runs: map<nat, Run>)

  datatype Action =
    | CreateTrip(trip: TripId, origin: Location)
    | Spawn(id: nat, job: Job)                     // a request, a retry, or a reconciler on any node
    | Turn(run: nat, resp: Response, down: bool)   // one step of a Run
    | Tick(to: nat)
    | Ping(driver: DriverId, at: Location, cell: Cell)
    | Expire(gone: DriverId)
    | Crash(node: nat)

  predicate Active(s: Sys, r: nat) {
    r in s.runs && !s.runs[r].pc.Done?
  }

  /** Time passes only while every Run is waiting, and no further than the first timer. */
  ghost predicate MayWait(s: Sys, to: nat) {
    forall r :: Active(s, r) ==>
      match s.runs[r].pc
      case Await(until) => to <= until
      case Pause(until) => to <= until
      case _ => false
  }

  ghost predicate Enabled(s: Sys, a: Action) {
    match a
    case CreateTrip(t, _) => t !in s.db.trips.trips
    case Spawn(r, _) => r !in s.runs
    case Turn(r, _, _) => Active(s, r) && InRange(s.runs[r])
    case Tick(to) => s.db.now <= to && MayWait(s, to)
    case Ping(_, _, _) => true
    case Expire(_) => true
    case Crash(r) => Active(s, r)
  }

  function Act(cfg: Config, s: Sys, a: Action): Sys
    requires a.Turn? ==> Active(s, a.run) && InRange(s.runs[a.run])
  {
    match a
    case CreateTrip(t, origin) =>
      s.(db := s.db.(trips := s.db.trips.(trips := s.db.trips.trips[t := TripRecord(origin, TripRequested, None)])))
    case Spawn(r, job) => s.(runs := s.runs[r := Begin(job, cfg.base)])
    case Turn(r, resp, down) =>
      var t := Step(cfg, s.runs[r], s.db, resp, down);
      Sys(t.1, s.runs[r := t.0])
    case Tick(to) => s.(db := s.db.(now := to))
    case Ping(d, at, cell) => s.(db := s.db.(drivers := Pinged(s.db.drivers, d, at, cell, s.db.now)))
    case Expire(d) => s.(db := s.db.(drivers := s.db.drivers - {d}))
    case Crash(r) => s.(runs := s.runs - {r})
  }

  // ---- who holds a driver --------------------------------------------------

  datatype Holder = ByRun(id: nat) | ByTrip(trip: TripId)

  predicate Occupied(run: Run, d: DriverId) {
    && run.i < |run.candidates| && run.candidates[run.i] == d
    && (run.pc.Open? || run.pc.Await? || run.pc.Settle? || run.pc.Engage? || run.pc.Commit? || run.pc.Release?)
  }

  predicate Holds(s: Sys, h: Holder, d: DriverId) {
    match h
    case ByRun(r) => r in s.runs && Occupied(s.runs[r], d)
    case ByTrip(t) => InState(s.db, t, TripMatched) && s.db.trips.trips[t].matchedDriver == Some(d)
  }

  function HeldState(s: Sys, h: Holder): DriverState {
    if h.ByRun? && h.id in s.runs && !s.runs[h.id].pc.Commit? then Offered else EnRoute
  }

  predicate Busy(s: Sys, d: DriverId, h: Holder) {
    Holds(s, h, d) && d in s.db.drivers && s.db.drivers[d].state == HeldState(s, h)
  }

  /** A held driver has a record, in the state its holder put it in. */
  ghost predicate Consistent(s: Sys) {
    forall h, d :: Holds(s, h, d) ==> Busy(s, d, h)
  }

  /** Each driver is held at most once: by one Run in a round, or by one matched trip. */
  ghost predicate Exclusive(s: Sys) {
    forall h, h', d :: Holds(s, h, d) && Holds(s, h', d) ==> h == h'
  }

  ghost predicate RunsAreLocal(cfg: Config, s: Sys) {
    forall r :: r in s.runs ==> Local(cfg, s.runs[r])
  }

  /** A trip names a driver exactly if it is matched. */
  ghost predicate MatchedNamed(s: Sys) {
    forall t :: t in s.db.trips.trips ==> (s.db.trips.trips[t].matchedDriver.Some? <==> InState(s.db, t, TripMatched))
  }

  predicate Reported(s: Sys, r: nat) {
    r in s.runs && s.runs[r].pc.Done? && s.runs[r].pc.result.Matched?
  }

  /** A Run that returned matched is what the trip records, and no other Run returned matched for that trip. */
  ghost predicate ReportsAgree(s: Sys) {
    && (forall r :: Reported(s, r) ==> Holds(s, ByTrip(s.runs[r].trip), s.runs[r].pc.result.driver))
    && (forall r, r' :: Reported(s, r) && Reported(s, r') && s.runs[r].trip == s.runs[r'].trip ==> r == r')
  }

  ghost predicate Safe(cfg: Config, s: Sys) {
    RunsAreLocal(cfg, s) && Consistent(s) && Exclusive(s) && MatchedNamed(s) && ReportsAgree(s) && Indexed(s.db.trips)
  }

  // ---- one step of a Run ---------------------------------------------------

  /** What a step does to the Run's own hold, when the driver's record agrees with it. */
  predicate Handover(run: Run, db: Db, run': Run, db': Db, d: DriverId) {
    && (Occupied(run', d) ==>
          d in db'.drivers && db'.drivers[d].state == (if run'.pc.Commit? then EnRoute else Offered))
    && (Occupied(run', d) ==> Occupied(run, d) || (d in db.drivers && db.drivers[d].state == Available))
    && (run'.pc.Done? && run'.pc.result.Matched? && run'.pc.result.driver == d ==>
          Occupied(run, d) && run.pc.Commit? && InState(db, run.trip, TripOffered)
          && InState(db', run.trip, TripMatched) && db'.trips.trips[run.trip].matchedDriver == Some(d))
    && (d in db.drivers && (!Occupied(run, d) ==> db.drivers[d].state != Available) ==>
          d in db'.drivers && (Occupied(run, d) || db'.drivers[d] == db.drivers[d]))
  }

  lemma StepHandsOver(cfg: Config, run: Run, db: Db, resp: Response, down: bool, d: DriverId)
    requires InRange(run) && !run.pc.Done?
    requires Occupied(run, d)
             ==> d in db.drivers && db.drivers[d].state == (if run.pc.Commit? then EnRoute else Offered)
    ensures var t := Step(cfg, run, db, resp, down); Handover(run, db, t.0, t.1, d)
  {
  }

  /** Trips other than the Run's are untouched, a resolved trip is untouched, origins never change, and a trip becomes
      MATCHED, and is given a driver, only in the step that makes its Run return so. */
  predicate TripsKept(run: Run, db: Db, run': Run, db': Db, t: TripId) {
    && (t in db.trips.trips ==> t in db'.trips.trips)
    && (t in db'.trips.trips ==>
          && t in db.trips.trips && db'.trips.trips[t].origin == db.trips.trips[t].origin
          && (InState(db', t, TripMatched) || db'.trips.trips[t].matchedDriver == db.trips.trips[t].matchedDriver))
    && (t in db.trips.trips && (t != run.trip || Terminal(db.trips.trips[t].state)) ==>
          db'.trips.trips[t] == db.trips.trips[t])
    && (InState(db', t, TripMatched) && !InState(db, t, TripMatched) ==>
          t == run.trip && run'.pc.Done? && run'.pc.result.Matched?
          && db'.trips.trips[t].matchedDriver == Some(run'.pc.result.driver))
  }

  lemma StepKeepsTrips(cfg: Config, run: Run, db: Db, resp: Response, down: bool, t: TripId)
    requires InRange(run) && !run.pc.Done?
    ensures var s := Step(cfg, run, db, resp, down); TripsKept(run, db, s.0, s.1, t) && s.0.trip == run.trip
  {
  }

  lemma StepKeepsIndexed(cfg: Config, run: Run, db: Db, resp: Response, down: bool)
    requires InRange(run) && !run.pc.Done? && Indexed(db.trips)
    ensures Indexed(Step(cfg, run, db, resp, down).1.trips)
  {
    var trips := Step(cfg, run, db, resp, down).1.trips;
    assert run.pc.MarkOffered? || run.pc.Commit? || run.pc.GiveUp? || trips == db.trips;
  }

  lemma TurnKeepsConsistent(cfg: Config, s: Sys, r: nat, resp: Response, down: bool)
    requires Safe(cfg, s) && Enabled(s, Turn(r, resp, down))
    ensures Consistent(Act(cfg, s, Turn(r, resp, down)))
  {
    var run := s.runs[r];
    var t := Step(cfg, run, s.db, resp, down);
    var s' := Act(cfg, s, Turn(r, resp, down));
    forall h, d | Holds(s', h, d)
      ensures Busy(s', d, h)
    {
      assert Occupied(run, d) ==> Holds(s, ByRun(r), d);
      StepHandsOver(cfg, run, s.db, resp, down, d);
      if h != ByRun(r) {
        if h.ByTrip? {
          StepKeepsTrips(cfg, run, s.db, resp, down, h.trip);
        }
        if Holds(s, h, d) {
          assert Busy(s, d, h);
        }
      }
    }
  }

  lemma TurnKeepsExclusive(cfg: Config, s: Sys, r: nat, resp: Response, down: bool)
    requires Safe(cfg, s) && Enabled(s, Turn(r, resp, down))
    ensures Exclusive(Act(cfg, s, Turn(r, resp, down)))
  {
    var s' := Act(cfg, s, Turn(r, resp, down));
    forall h, h', d | Holds(s', h, d) && Holds(s', h', d)
      ensures h == h'
    {
      var g := TurnTraces(cfg, s, r, resp, down, h, d);
      var g' := TurnTraces(cfg, s, r, resp, down, h', d);
    }
  }

  /** The holder of d before a step that leaves h holding it; a free driver can only be taken by the Run itself. */
  lemma TurnTraces(cfg: Config, s: Sys, r: nat, resp: Response, down: bool, h: Holder, d: DriverId)
    returns (g: Holder)
    requires Safe(cfg, s) && Enabled(s, Turn(r, resp, down))
    requires Holds(Act(cfg, s, Turn(r, resp, down)), h, d)
    ensures h == ByRun(r) && !Holds(s, ByRun(r), d) ==> d in s.db.drivers && s.db.drivers[d].state == Available
    ensures !(h == ByRun(r) && !Holds(s, ByRun(r), d)) ==>
              && Holds(s, g, d)
              && (h == g || (g == ByRun(r) && h == ByTrip(s.runs[r].trip)
                             && !Holds(Act(cfg, s, Turn(r, resp, down)), ByRun(r), d)))
    ensures Holds(s, g, d) ==> Busy(s, d, g)
  {
    var run := s.runs[r];
    var t := Step(cfg, run, s.db, resp, down);
    assert Occupied(run, d) ==> Holds(s, ByRun(r), d);
    if Occupied(run, d) {
      assert Busy(s, d, ByRun(r));
    }
    StepHandsOver(cfg, run, s.db, resp, down, d);
    g := h;
    if h.ByTrip? {
      StepKeepsTrips(cfg, run, s.db, resp, down, h.trip);
      if !Holds(s, h, d) {
        g := ByRun(r);
      }
    }
  }

  /** The reports after Run r has moved to run', given what its step did to the trips. */
  lemma ReportsFollow(s: Sys, s': Sys, r: nat, run': Run)
    requires MatchedNamed(s) && ReportsAgree(s)
    requires Active(s, r) && s'.runs == s.runs[r := run'] && run'.trip == s.runs[r].trip
    requires forall t :: TripsKept(s.runs[r], s.db, run', s'.db, t)
    requires Reported(s', r) ==>
               InState(s.db, run'.trip, TripOffered) && Holds(s', ByTrip(run'.trip), run'.pc.result.driver)
    ensures MatchedNamed(s') && ReportsAgree(s')
  {
    forall t | t in s'.db.trips.trips
      ensures s'.db.trips.trips[t].matchedDriver.Some? <==> InState(s'.db, t, TripMatched)
    {
      assert TripsKept(s.runs[r], s.db, run', s'.db, t);
    }
    forall x | Reported(s', x)
      ensures Holds(s', ByTrip(s'.runs[x].trip), s'.runs[x].pc.result.driver)
    {
      if x != r {
        assert Reported(s, x);
        assert TripsKept(s.runs[r], s.db, run', s'.db, s.runs[x].trip);
      }
    }
    forall x, y | Reported(s', x) && Reported(s', y) && s'.runs[x].trip == s'.runs[y].trip
      ensures x == y
    {
      assert x != r ==> Reported(s, x);
      assert y != r ==> Reported(s, y);
    }
  }

  lemma TurnKeepsReports(cfg: Config, s: Sys, r: nat, resp: Response, down: bool)
    requires Safe(cfg, s) && Enabled(s, Turn(r, resp, down))
    ensures MatchedNamed(Act(cfg, s, Turn(r, resp, down)))
    ensures ReportsAgree(Act(cfg, s, Turn(r, resp, down)))
  {
    var run := s.runs[r];
    var t := Step(cfg, run, s.db, resp, down);
    var s' := Act(cfg, s, Turn(r, resp, down));
    forall x
      ensures TripsKept(run, s.db, t.0, t.1, x) && t.0.trip == run.trip
    {
      StepKeepsTrips(cfg, run, s.db, resp, down, x);
    }
    if Reported(s', r) {
      var d := t.0.pc.result.driver;
      if Occupied(run, d) {
        assert Holds(s, ByRun(r), d);
        assert Busy(s, d, ByRun(r));
      }
      StepHandsOver(cfg, run, s.db, resp, down, d);
    }
    ReportsFollow(s, s', r, t.0);
  }

  lemma TurnIsSafe(cfg: Config, s: Sys, r: nat, resp: Response, down: bool)
    requires Safe(cfg, s) && Enabled(s, Turn(r, resp, down))
    ensures Safe(cfg, Act(cfg, s, Turn(r, resp, down)))
  {
    TurnKeepsConsistent(cfg, s, r, resp, down);
    TurnKeepsExclusive(cfg, s, r, resp, down);
    TurnKeepsReports(cfg, s, r, resp, down);
    StepKeepsIndexed(cfg, s.runs[r], s.db, resp, down);
    StepKeepsLocal(cfg, s.runs[r], s.db, resp, down);
  }

  // ---- the other actions ---------------------------------------------------

  /** Every action but a Run's own step keeps what each holder holds, or drops a crashed holder. */
  lemma OthersHoldTheSame(cfg: Config, s: Sys, a: Action, h: Holder, d: DriverId)
    requires Safe(cfg, s) && Enabled(s, a) && !a.Turn?
    ensures Holds(Act(cfg, s, a), h, d) ==> Holds(s, h, d) && HeldState(Act(cfg, s, a), h) == HeldState(s, h)
  {
  }

  lemma OthersAreSafe(cfg: Config, s: Sys, a: Action)
    requires Safe(cfg, s) && Enabled(s, a) && !a.Turn?
    requires a.Expire? ==> forall h :: !Holds(s, h, a.gone)
    ensures Safe(cfg, Act(cfg, s, a))
  {
    var s' := Act(cfg, s, a);
    forall h, d | Holds(s', h, d)
      ensures Holds(s, h, d) && Busy(s', d, h)
    {
      OthersHoldTheSame(cfg, s, a, h, d);
      assert Busy(s, d, h);
    }
    if a.Spawn? {
      BeginIsLocal(cfg, a.job);
    }
    assert forall r :: Reported(s', r) ==> Reported(s, r);
    assert forall t :: InState(s'.db, t, TripMatched) <==> InState(s.db, t, TripMatched);
  }

  /** Losing a driver's hash is harmless exactly while nothing holds the driver. */
  lemma ExpiryIsSafeIffUnheld(cfg: Config, s: Sys, d: DriverId)
    requires Safe(cfg, s)
    ensures Safe(cfg, Act(cfg, s, Expire(d))) <==> forall h :: !Holds(s, h, d)
  {
    var s' := Act(cfg, s, Expire(d));
    if forall h :: !Holds(s, h, d) {
      OthersAreSafe(cfg, s, Expire(d));
    } else {
      var h :| Holds(s, h, d);
      assert Holds(s', h, d) && !Busy(s', d, h);
    }
  }

  /** And not only on paper: a driver whose hash expires in mid-round and who then pings is AVAILABLE again, and the
      next Run to reach them claims them a second time. */
  lemma ExpiryLetsTwoRunsClaim(
    cfg: Config, s: Sys, first: nat, second: nat, d: DriverId, at: Location, cell: Cell, resp: Response)
    requires Safe(cfg, s) && Holds(s, ByRun(first), d)
    requires Active(s, second) && s.runs[second].pc.Claim? && s.runs[second].candidates[s.runs[second].i] == d
    ensures var s1 := Act(cfg, s, Expire(d));
            var s2 := Act(cfg, s1, Ping(d, at, cell));
            var s3 := Act(cfg, s2, Turn(second, resp, false));
            first != second && Holds(s3, ByRun(first), d) && Holds(s3, ByRun(second), d)
  {
  }

  // ---- executions ----------------------------------------------------------

  datatype Execution = Execution(states: seq<Sys>, actions: seq<Action>)

  /** Nothing dispatched yet; any drivers, in any states. */
  ghost predicate Initial(s: Sys) {
    s.runs == map[] && s.db.trips == TripTable(map[], {}) && s.db.offers == OfferTable(map[], map[])
  }

  /** A hash expires only while nothing holds its driver. */
  ghost predicate Kept(s: Sys, a: Action) {
    a.Expire? ==> forall h :: !Holds(s, h, a.gone)
  }

  ghost predicate StepsTo(cfg: Config, s: Sys, a: Action, s': Sys) {
    Enabled(s, a) && Kept(s, a) && s' == Act(cfg, s, a)
  }

  ghost predicate IsExecution(cfg: Config, e: Execution) {
    && |e.states| == |e.actions| + 1
    && Initial(e.states[0])
    && forall k :: 0 <= k < |e.actions| ==> StepsTo(cfg, e.states[k], e.actions[k], e.states[k + 1])
  }

  function Extend(e: Execution, a: Action, s: Sys): Execution {
    Execution(e.states + [s], e.actions + [a])
  }

  function Last(e: Execution): Sys
    requires e.states != []
  {
    e.states[|e.states| - 1]
  }

  lemma ExtendIsExecution(cfg: Config, e: Execution, a: Action, s: Sys)
    requires IsExecution(cfg, e) && StepsTo(cfg, Last(e), a, s)
    ensures IsExecution(cfg, Extend(e, a, s)) && Last(Extend(e, a, s)) == s
  {
    var e' := Extend(e, a, s);
    forall k | 0 <= k < |e'.actions|
      ensures StepsTo(cfg, e'.states[k], e'.actions[k], e'.states[k + 1])
    {
      assert k < |e.actions| ==> StepsTo(cfg, e.states[k], e.actions[k], e.states[k + 1]);
    }
  }

  /** In every interleaving: no driver is held twice, two matched trips never share a driver, a held driver is OFFERED
      and a matched one EN_ROUTE, at most one Run reports a match per trip and the trip records its driver, and every
      Run's events follow the grammar. */
  lemma {:induction false} EveryExecutionIsSafe(cfg: Config, e: Execution, k: nat)
    requires IsExecution(cfg, e) && k < |e.states|
    ensures Safe(cfg, e.states[k])
  {
    if k > 0 {
      EveryExecutionIsSafe(cfg, e, k - 1);
      var s, a := e.states[k - 1], e.actions[k - 1];
      assert StepsTo(cfg, s, a, e.states[k - 1 + 1]);
      if a.Turn? {
        TurnIsSafe(cfg, s, a.run, a.resp, a.down);
      } else {
        OthersAreSafe(cfg, s, a);
      }
    }
  }

  lemma MatchedTripsNeverShareADriver(cfg: Config, e: Execution, k: nat, t: TripId, u: TripId)
    requires IsExecution(cfg, e) && k < |e.states|
    requires InState(e.states[k].db, t, TripMatched) && InState(e.states[k].db, u, TripMatched)
    ensures var db := e.states[k].db;
            var d := db.trips.trips[t].matchedDriver;
            && d.Some? && d.value in db.drivers && db.drivers[d.value].state == EnRoute
            && (d == db.trips.trips[u].matchedDriver ==> t == u)
  {
    EveryExecutionIsSafe(cfg, e, k);
    var s := e.states[k];
    var d := s.db.trips.trips[t].matchedDriver;
    assert Holds(s, ByTrip(t), d.value);
    assert Busy(s, d.value, ByTrip(t));
    if d == s.db.trips.trips[u].matchedDriver {
      assert Holds(s, ByTrip(u), d.value);
    }
  }

  /** The branches of Run that put up with a driver in an unexpected state are never taken. */
  lemma ToleranceIsNeverNeeded(cfg: Config, e: Execution, k: nat, r: nat)
    requires IsExecution(cfg, e) && k < |e.states| && Active(e.states[k], r)
    ensures var s := e.states[k];
            var run := s.runs[r];
            && (run.pc.Engage? ==> run.i < |run.candidates|
                                   && SetDriver(s.db.drivers, run.candidates[run.i], EnRoute, s.db.now).err.None?)
            && (run.pc.Release? ==> run.i < |run.candidates|
                                    && SetDriver(s.db.drivers, run.candidates[run.i], Available, s.db.now).err.None?)
  {
    EveryExecutionIsSafe(cfg, e, k);
    var s := e.states[k];
    var run := s.runs[r];
    if run.pc.Engage? || run.pc.Release? {
      assert Holds(s, ByRun(r), run.candidates[run.i]);
      assert Busy(s, run.candidates[run.i], ByRun(r));
    }
  }

  /** A resolved trip keeps its record for ever: state and matched driver. */
  lemma {:induction false} ResolutionIsFinal(cfg: Config, e: Execution, j: nat, k: nat, t: TripId)
    requires IsExecution(cfg, e) && j <= k < |e.states|
    requires t in e.states[j].db.trips.trips && Terminal(e.states[j].db.trips.trips[t].state)
    ensures t in e.states[k].db.trips.trips && e.states[k].db.trips.trips[t] == e.states[j].db.trips.trips[t]
    decreases k
  {
    if j < k {
      ResolutionIsFinal(cfg, e, j, k - 1, t);
      var s, a := e.states[k - 1], e.actions[k - 1];
      assert StepsTo(cfg, s, a, e.states[k - 1 + 1]);
      if a.Turn? {
        StepKeepsTrips(cfg, s.runs[a.run], s.db, a.resp, a.down, t);
      }
    }
  }

  /** However many Runs race for a trip, at most one ever returns matched, and from then on the trip says so. */
  lemma OneMatchPerTrip(cfg: Config, e: Execution, j: nat, k: nat, r: nat, r': nat)
    requires IsExecution(cfg, e) && j <= k < |e.states|
    requires Reported(e.states[j], r)
    ensures var t := e.states[j].runs[r].trip;
            && InState(e.states[k].db, t, TripMatched)
            && e.states[k].db.trips.trips[t].matchedDriver == Some(e.states[j].runs[r].pc.result.driver)
            && (Reported(e.states[k], r') && e.states[k].runs[r'].trip == t ==> r' == r)
  {
    EveryExecutionIsSafe(cfg, e, j);
    EveryExecutionIsSafe(cfg, e, k);
    ResolutionIsFinal(cfg, e, j, k, e.states[j].runs[r].trip);
    ReportsPersist(cfg, e, j, k, r);
  }

  lemma {:induction false} ReportsPersist(cfg: Config, e: Execution, j: nat, k: nat, r: nat)
    requires IsExecution(cfg, e) && j <= k < |e.states| && Reported(e.states[j], r)
    ensures Reported(e.states[k], r) && e.states[k].runs[r] == e.states[j].runs[r]
    decreases k
  {
    if j < k {
      ReportsPersist(cfg, e, j, k - 1, r);
      assert StepsTo(cfg, e.states[k - 1], e.actions[k - 1], e.states[k - 1 + 1]);
    }
  }
}
