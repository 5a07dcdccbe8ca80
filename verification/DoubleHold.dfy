/** From a hash that expires in mid-round to the driver found in an unexpected state: how the system gets there, and
    what it comes to when two Runs hold one driver, however that came about. */
module DoubleHold {
  import opened StateMachine
  import opened StoreSpec
  import opened Protocol
  import opened Interleaving

  /** These actions can be taken from s, in this order, and lead to s'. Unlike in an execution, anything may expire. */
  ghost predicate Leads(cfg: Config, s: Sys, actions: seq<Action>, s': Sys)
    decreases |actions|
  {
    if actions == [] then s' == s
    else Enabled(s, actions[0]) && Leads(cfg, Act(cfg, s, actions[0]), actions[1..], s')
  }

  lemma {:induction false} LeadsOn(cfg: Config, s: Sys, a: seq<Action>, t: Sys, b: seq<Action>, u: Sys)
    requires Leads(cfg, s, a, t) && Leads(cfg, t, b, u)
    ensures Leads(cfg, s, a + b, u)
    decreases |a|
  {
    if a == [] {
      assert a + b == b;
    } else {
      LeadsOn(cfg, Act(cfg, s, a[0]), a[1..], t, b, u);
      assert (a + b)[0] == a[0] && (a + b)[1..] == a[1..] + b;
    }
  }

  lemma LeadsThrough(
    cfg: Config, s: Sys, a: seq<Action>, t: Sys, b: seq<Action>, u: Sys, c: seq<Action>, v: Sys)
    requires Leads(cfg, s, a, t) && Leads(cfg, t, b, u) && Leads(cfg, u, c, v)
    ensures Leads(cfg, s, a + b + c, v)
  {
    LeadsOn(cfg, s, a, t, b, u);
    LeadsOn(cfg, s, a + b, u, c, v);
  }

  lemma LeadsOnce(cfg: Config, s: Sys, a: Action)
    requires Enabled(s, a)
    ensures Leads(cfg, s, [a], Act(cfg, s, a))
  {
    assert Leads(cfg, Act(cfg, s, a), [a][1..], Act(cfg, s, a));
  }

  // ---- an execution on the way there ---------------------------------------

  /** r has just begun on a REQUESTED trip with d for only candidate. */
  predicate Begun(cfg: Config, s: Sys, r: nat, d: DriverId) {
    && r in s.runs && s.runs[r].pc.Load? && s.runs[r].candidates == [d] && s.runs[r].rounds == 0
    && InState(s.db, s.runs[r].trip, TripRequested)
  }

  predicate AtClaim(s: Sys, r: nat, d: DriverId) {
    r in s.runs && s.runs[r].pc.Claim? && s.runs[r].candidates == [d] && s.runs[r].i == 0
  }

  /** Its first two steps. */
  lemma Approach(cfg: Config, e: Execution, r: nat, d: DriverId) returns (e': Execution)
    requires IsExecution(cfg, e) && Begun(cfg, Last(e), r, d) && cfg.maxRounds > 0
    ensures IsExecution(cfg, e') && AtClaim(Last(e'), r, d)
    ensures Last(e').db.drivers == Last(e).db.drivers
    ensures forall x :: x in Last(e).runs && x != r ==> x in Last(e').runs && Last(e').runs[x] == Last(e).runs[x]
    ensures forall t :: t != Last(e).runs[r].trip && InState(Last(e).db, t, TripRequested) ==>
              InState(Last(e').db, t, TripRequested)
  {
    var a := Turn(r, NoResponse, false);
    var s1 := Act(cfg, Last(e), a);
    assert s1.runs[r].pc.MarkOffered?;
    ExtendIsExecution(cfg, e, a, s1);
    e' := Extend(e, a, s1);
    var s2 := Act(cfg, s1, a);
    ExtendIsExecution(cfg, e', a, s2);
    e' := Extend(e', a, s2);
  }

  lemma TwoBegun(cfg: Config, d: DriverId) returns (e: Execution)
    ensures IsExecution(cfg, e) && Begun(cfg, Last(e), 0, d) && Begun(cfg, Last(e), 1, d)
    ensures Last(e).runs[0].trip != Last(e).runs[1].trip
    ensures d in Last(e).db.drivers && Last(e).db.drivers[d].state == Available
  {
    var origin := Location(0.0, 0.0);
    var drivers := map[d := DriverRecord(origin, 0, Available, 0, None)];
    var s0 := Sys(Db(drivers, TripTable(map[], {}), OfferTable(map[], map[]), 0), map[]);
    var a0, a1 := CreateTrip("t", origin), CreateTrip("u", origin);
    var a2, a3 := Spawn(0, Job("t", 0, [d], 0)), Spawn(1, Job("u", 0, [d], 0));
    var s1 := Act(cfg, s0, a0);
    var s2 := Act(cfg, s1, a1);
    var s3 := Act(cfg, s2, a2);
    var s4 := Act(cfg, s3, a3);
    e := Execution([s0, s1, s2, s3, s4], [a0, a1, a2, a3]);
    forall k | 0 <= k < 4
      ensures StepsTo(cfg, e.states[k], e.actions[k], e.states[k + 1])
    {
      assert k == 0 || k == 1 || k == 2 || k == 3;
    }
  }

  /** An execution that meets what ExpiryLetsTwoRunsClaim requires. */
  lemma RivalIsAtClaim(cfg: Config, d: DriverId) returns (e: Execution)
    requires cfg.maxRounds > 0
    ensures IsExecution(cfg, e) && Safe(cfg, Last(e))
    ensures 0 in Last(e).runs && Last(e).runs[0].pc.Open? && Holds(Last(e), ByRun(0), d) && AtClaim(Last(e), 1, d)
  {
    e := TwoBegun(cfg, d);
    e := Approach(cfg, e, 0, d);
    e := Approach(cfg, e, 1, d);
    var a := Turn(0, NoResponse, false);
    var s := Act(cfg, Last(e), a);
    ExtendIsExecution(cfg, e, a, s);
    e := Extend(e, a, s);
    EveryExecutionIsSafe(cfg, e, |e.states| - 1);
  }

  // ---- and on from there ---------------------------------------------------

  /** r has claimed d and is about to open its offer. */
  predicate Claimed(s: Sys, r: nat, d: DriverId) {
    r in s.runs && s.runs[r].pc.Open? && s.runs[r].i < |s.runs[r].candidates| && s.runs[r].candidates[s.runs[r].i] == d
  }

  predicate Answered(s: Sys, r: nat, d: DriverId, resp: Response) {
    && r in s.runs && s.runs[r].pc == (if resp == Accepted then Engage else Release)
    && s.runs[r].i < |s.runs[r].candidates| && s.runs[r].candidates[s.runs[r].i] == d
  }

  function Round(r: nat, resp: Response): seq<Action> {
    [Turn(r, resp, false), Turn(r, resp, false), Turn(r, resp, false)]
  }

  /** A round from its claim to its recorded answer moves no driver and no other Run. */
  lemma RoundIsAnswered(cfg: Config, s: Sys, r: nat, d: DriverId, resp: Response) returns (s': Sys)
    requires Claimed(s, r, d)
    ensures Leads(cfg, s, Round(r, resp), s') && Answered(s', r, d, resp)
    ensures s'.db.drivers == s.db.drivers
    ensures forall x :: x in s.runs && x != r ==> x in s'.runs && s'.runs[x] == s.runs[x]
  {
    var a := Turn(r, resp, false);
    var s1 := Act(cfg, s, a);
    assert s1.runs[r].pc.Await?;
    var s2 := Act(cfg, s1, a);
    s' := Act(cfg, s2, a);
    LeadsOnce(cfg, s2, a);
    LeadsOnce(cfg, s1, a);
    LeadsOnce(cfg, s, a);
    LeadsThrough(cfg, s, [a], s1, [a], s2, [a], s');
    assert [a] + [a] + [a] == Round(r, resp);
  }

  function Wanted(resp: Response): DriverState {
    if resp == Accepted then EnRoute else Available
  }

  /** a is a call that may change what state d is in: the expiry of its hash, or a claim, release or EN_ROUTE of d by
      some Run. */
  predicate CallsOn(s: Sys, a: Action, d: DriverId) {
    || a == Expire(d)
    || (a.Turn? && a.run in s.runs && s.runs[a.run].i < |s.runs[a.run].candidates|
        && s.runs[a.run].candidates[s.runs[a.run].i] == d
        && (s.runs[a.run].pc.Claim? || s.runs[a.run].pc.Engage? || s.runs[a.run].pc.Release?))
  }

  /** As Leads, by anything the system may do short of that. */
  ghost predicate LeadsQuietly(cfg: Config, s: Sys, actions: seq<Action>, s': Sys, d: DriverId)
    decreases |actions|
  {
    if actions == [] then s' == s
    else && Enabled(s, actions[0]) && !CallsOn(s, actions[0], d)
         && LeadsQuietly(cfg, Act(cfg, s, actions[0]), actions[1..], s', d)
  }

  predicate InDriverState(s: Sys, d: DriverId, state: DriverState) {
    d in s.db.drivers && s.db.drivers[d].state == state
  }

  lemma OneQuietAct(cfg: Config, s: Sys, a: Action, d: DriverId, state: DriverState)
    requires Enabled(s, a) && !CallsOn(s, a, d) && InDriverState(s, d, state)
    ensures InDriverState(Act(cfg, s, a), d, state)
  {
  }

  lemma {:induction false} QuietKeepsState(
    cfg: Config, s: Sys, actions: seq<Action>, s': Sys, d: DriverId, state: DriverState)
    requires LeadsQuietly(cfg, s, actions, s', d) && InDriverState(s, d, state)
    ensures InDriverState(s', d, state)
    decreases |actions|
  {
    if actions != [] {
      OneQuietAct(cfg, s, actions[0], d, state);
      QuietKeepsState(cfg, Act(cfg, s, actions[0]), actions[1..], s', d, state);
    }
  }

  lemma UpdateSetsState(cfg: Config, s: Sys, r: nat, d: DriverId, resp: Response, any: Response)
    requires Answered(s, r, d, resp) && InDriverState(s, d, Offered)
    ensures Enabled(s, Turn(r, any, false)) && SetDriver(s.db.drivers, d, Wanted(resp), s.db.now).err.None?
    ensures InDriverState(Act(cfg, s, Turn(r, any, false)), d, Wanted(resp))
  {
  }

  /** A driver update that is refused does not stop its Run, and changes nothing; only a driver without a record stops
      it. */
  lemma UpdateFailsIffMissing(cfg: Config, run: Run, db: Db, any: Response)
    requires InRange(run) && (run.pc.Engage? || run.pc.Release?)
    ensures var (run', db') := Step(cfg, run, db, any, false);
            var d := run.candidates[run.i];
            && (run'.pc.Done? <==> d !in db.drivers)
            && (run'.pc.Done? ==> run'.pc == Done(Failed(DriverNotFound)))
            && (!run'.pc.Done? && run.pc.Engage? ==> run'.pc.Commit? && run'.i == run.i)
            && (!run'.pc.Done? && run.pc.Release? ==> run'.pc.Pause? || run'.pc.GiveUp?)
            && (SetDriver(db.drivers, d, if run.pc.Engage? then EnRoute else Available, db.now).err.Some? ==> db' == db)
  {
  }

  /** Two Runs that hold one OFFERED driver, in any order of their steps and of everyone else's, as long as nobody else
      calls on the driver: the first update to come goes through, and the other Run's is then refused, except that a
      release after the other's acceptance goes through and frees the driver just sent EN_ROUTE. */
  lemma SecondUpdateIsRefusedUnlessItFrees(
    cfg: Config, s: Sys, before: seq<Action>, s1: Sys, first: nat, resp: Response, any: Response,
    between: seq<Action>, s2: Sys, second: nat, answer: Response, d: DriverId)
    requires InDriverState(s, d, Offered)
    requires LeadsQuietly(cfg, s, before, s1, d) && Answered(s1, first, d, resp)
    requires LeadsQuietly(cfg, Act(cfg, s1, Turn(first, any, false)), between, s2, d) && Answered(s2, second, d, answer)
    ensures SetDriver(s1.db.drivers, d, Wanted(resp), s1.db.now).err.None?
    ensures SetDriver(s2.db.drivers, d, Wanted(answer), s2.db.now).err
            == if resp == Accepted && answer != Accepted then None
               else Some(IllegalDriver(Wanted(resp), Wanted(answer)))
  {
    QuietKeepsState(cfg, s, before, s1, d, Offered);
    UpdateSetsState(cfg, s1, first, d, resp, any);
    QuietKeepsState(cfg, Act(cfg, s1, Turn(first, any, false)), between, s2, d, Wanted(resp));
  }

  /** The driver update of the first of two Runs that hold d. */
  lemma FirstUpdates(
    cfg: Config, s: Sys, first: nat, second: nat, d: DriverId, firstResp: Response, secondResp: Response)
    requires first != second && Answered(s, first, d, firstResp) && Answered(s, second, d, secondResp)
    requires d in s.db.drivers && s.db.drivers[d].state == Offered
    ensures var s' := Act(cfg, s, Turn(first, NoResponse, false));
            && Answered(s', second, d, secondResp)
            && SetDriver(s'.db.drivers, d, Wanted(secondResp), s'.db.now).err
               == if firstResp == Accepted && secondResp != Accepted then None
                  else Some(IllegalDriver(Wanted(firstResp), Wanted(secondResp)))
  {
  }

  /** Two rounds one after the other, and the driver update of the first. */
  lemma RoundsEndInRefusal(
    cfg: Config, s: Sys, first: nat, second: nat, d: DriverId, firstResp: Response, secondResp: Response)
    returns (s': Sys)
    requires first != second && Claimed(s, first, d) && Claimed(s, second, d)
    requires d in s.db.drivers && s.db.drivers[d].state == Offered
    ensures Leads(cfg, s, Round(first, firstResp) + Round(second, secondResp) + [Turn(first, NoResponse, false)], s')
    ensures Answered(s', second, d, secondResp)
    ensures SetDriver(s'.db.drivers, d, Wanted(secondResp), s'.db.now).err
            == if firstResp == Accepted && secondResp != Accepted then None
               else Some(IllegalDriver(Wanted(firstResp), Wanted(secondResp)))
  {
    var s1 := RoundIsAnswered(cfg, s, first, d, firstResp);
    var s2 := RoundIsAnswered(cfg, s1, second, d, secondResp);
    var a := Turn(first, NoResponse, false);
    s' := Act(cfg, s2, a);
    FirstUpdates(cfg, s2, first, second, d, firstResp, secondResp);
    LeadsOnce(cfg, s2, a);
    LeadsThrough(cfg, s, Round(first, firstResp), s1, Round(second, secondResp), s2, [a], s');
  }

  function Refusal(d: DriverId, at: Location, cell: Cell, first: nat, second: nat, resp: Response, answer: Response)
    : seq<Action>
  {
    [Expire(d), Ping(d, at, cell), Turn(second, NoResponse, false)]
    + (Round(first, resp) + Round(second, answer) + [Turn(first, NoResponse, false)])
  }

  /** The hash of a driver in mid-round expires, the driver pings, another Run claims them: both rounds then go their
      way, and a driver update of the second is refused, or frees the driver of the first. */
  lemma ExpiryEndsInRefusal(
    cfg: Config, s: Sys, first: nat, second: nat, d: DriverId, at: Location, cell: Cell, resp: Response,
    answer: Response)
    returns (s': Sys)
    requires Safe(cfg, s) && Claimed(s, first, d) && AtClaim(s, second, d)
    ensures Leads(cfg, s, Refusal(d, at, cell, first, second, resp, answer), s')
    ensures Answered(s', second, d, answer)
    ensures SetDriver(s'.db.drivers, d, Wanted(answer), s'.db.now).err
            == if resp == Accepted && answer != Accepted then None
               else Some(IllegalDriver(Wanted(resp), Wanted(answer)))
  {
    var a0, a1, a2 := Expire(d), Ping(d, at, cell), Turn(second, NoResponse, false);
    var s1 := Act(cfg, s, a0);
    var s2 := Act(cfg, s1, a1);
    var s3 := Act(cfg, s2, a2);
    LeadsOnce(cfg, s, a0);
    LeadsOnce(cfg, s1, a1);
    LeadsOnce(cfg, s2, a2);
    LeadsThrough(cfg, s, [a0], s1, [a1], s2, [a2], s3);
    assert [a0] + [a1] + [a2] == [a0, a1, a2];
    s' := RoundsEndInRefusal(cfg, s3, first, second, d, resp, answer);
    var rest := Round(first, resp) + Round(second, answer) + [Turn(first, NoResponse, false)];
    LeadsOn(cfg, s, [a0, a1, a2], s3, rest, s');
  }

  /** Starting from nothing, that is reached: the EN_ROUTE of an accepted offer is refused. */
  lemma RefusalIsReached(cfg: Config, d: DriverId, at: Location, cell: Cell) returns (e: Execution, s: Sys)
    requires cfg.maxRounds > 0
    ensures IsExecution(cfg, e) && Leads(cfg, Last(e), Refusal(d, at, cell, 0, 1, Accepted, Accepted), s)
    ensures 1 in s.runs && s.runs[1].pc.Engage? && s.runs[1].i < |s.runs[1].candidates|
    ensures SetDriver(s.db.drivers, s.runs[1].candidates[s.runs[1].i], EnRoute, s.db.now).err
            == Some(IllegalDriver(EnRoute, EnRoute))
  {
    e := RivalIsAtClaim(cfg, d);
    s := ExpiryEndsInRefusal(cfg, Last(e), 0, 1, d, at, cell, Accepted, Accepted);
  }
}
