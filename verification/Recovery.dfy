/** What a Run leaves in the stores wherever it stops, and so what a later sweep can rely on. */
module Recovery {
  import opened StateMachine
  import opened StoreSpec
  import opened Protocol
  import opened Isolation

  predicate Resolved(db: Db, trip: TripId) {
    trip in db.trips.trips && Terminal(db.trips.trips[trip].state)
  }

  /** Nothing stored about t differs between a and b. */
  predicate SameTrip(a: Db, b: Db, t: TripId) {
    && (t in a.trips.trips <==> t in b.trips.trips)
    && (t in a.trips.trips ==> a.trips.trips[t] == b.trips.trips[t])
    && (t in a.trips.offered <==> t in b.trips.offered)
    && (t in a.offers.offers <==> t in b.offers.offers)
    && (t in a.offers.offers ==> a.offers.offers[t] == b.offers.offers[t])
  }

  ghost predicate TouchesOnly(trip: TripId, a: Db, b: Db) {
    a.now <= b.now && forall t :: t != trip ==> SameTrip(a, b, t)
  }

  lemma StepTouchesOwnTrip(cfg: Config, run: Run, db: Db, resp: Response, down: bool)
    requires InRange(run) && !run.pc.Done?
    ensures var t := Step(cfg, run, db, resp, down); TouchesOnly(run.trip, db, t.1) && t.0.trip == run.trip
  {
  }

  lemma MoveTouchesOwnTrip(cfg: Config, env: Env, s: (Run, Db))
    requires InRange(s.0)
    ensures var t := Move(cfg, env, s); TouchesOnly(s.0.trip, s.1, t.1) && t.0.trip == s.0.trip
  {
    if !s.0.pc.Done? {
      StepTouchesOwnTrip(cfg, s.0, s.1.(now := ClockAt(cfg, env, s.0, s.1.now)),
                         Hears(cfg, env.answers(s.0.trip, s.0.rounds)).0, env.fails(s.0.steps));
    }
  }

  lemma {:induction false} RunTouchesOwnTrip(cfg: Config, env: Env, job: Job, db: Db, n: nat)
    ensures var t := Started(cfg, env, job, db, n); TouchesOnly(job.trip, db, t.1) && t.0.trip == job.trip
  {
    if n > 0 {
      RunTouchesOwnTrip(cfg, env, job, db, n - 1);
      var s := Started(cfg, env, job, db, n - 1);
      var t := Move(cfg, env, s);
      assert Started(cfg, env, job, db, n) == t;
      MoveTouchesOwnTrip(cfg, env, s);
      Chained(job.trip, db, s.1, t.1);
    }
  }

  lemma Chained(trip: TripId, a: Db, b: Db, c: Db)
    requires TouchesOnly(trip, a, b) && TouchesOnly(trip, b, c)
    ensures TouchesOnly(trip, a, c)
  {
    forall t | t != trip
      ensures SameTrip(a, c, t)
    {
      assert SameTrip(a, b, t) && SameTrip(b, c, t);
    }
  }

  lemma MoveKeepsPlaces(cfg: Config, env: Env, s: (Run, Db))
    requires InRange(s.0)
    ensures SamePlaces(s.1.drivers, Move(cfg, env, s).1.drivers)
  {
  }

  /** A Run moves no driver on the map, adds none and loses none. */
  lemma {:induction false} RunKeepsPlaces(cfg: Config, env: Env, job: Job, db: Db, n: nat)
    ensures SamePlaces(db.drivers, Started(cfg, env, job, db, n).1.drivers)
  {
    if n > 0 {
      RunKeepsPlaces(cfg, env, job, db, n - 1);
      var s := Started(cfg, env, job, db, n - 1);
      var t := Move(cfg, env, s);
      assert Started(cfg, env, job, db, n) == t;
      MoveKeepsPlaces(cfg, env, s);
    }
  }

  predicate SameOrigins(a: TripTable, b: TripTable) {
    a.trips.Keys == b.trips.Keys && forall t :: t in a.trips ==> a.trips[t].origin == b.trips[t].origin
  }

  lemma MoveKeepsOrigins(cfg: Config, env: Env, s: (Run, Db))
    requires InRange(s.0)
    ensures SameOrigins(s.1.trips, Move(cfg, env, s).1.trips)
  {
  }

  /** Nor does it move a trip's origin, from which a sweep will search. */
  lemma {:induction false} RunKeepsOrigins(cfg: Config, env: Env, job: Job, db: Db, n: nat)
    ensures SameOrigins(db.trips, Started(cfg, env, job, db, n).1.trips)
  {
    if n > 0 {
      RunKeepsOrigins(cfg, env, job, db, n - 1);
      var s := Started(cfg, env, job, db, n - 1);
      var t := Move(cfg, env, s);
      assert Started(cfg, env, job, db, n) == t;
      MoveKeepsOrigins(cfg, env, s);
    }
  }

  lemma MoveTripKeepsIndexed(t: TripTable, id: TripId, to: TripState, driver: Option<DriverId>)
    requires Indexed(t)
    ensures Indexed(MoveTrip(t, id, to, driver).table)
  {
  }

  lemma MoveKeepsIndexed(cfg: Config, env: Env, s: (Run, Db))
    requires InRange(s.0) && Indexed(s.1.trips)
    ensures Indexed(Move(cfg, env, s).1.trips)
  {
    var trips, id := s.1.trips, s.0.trip;
    MoveTripKeepsIndexed(trips, id, TripOffered, None);
    MoveTripKeepsIndexed(trips, id, TripUnfulfilled, None);
    if s.0.pc.Commit? {
      MoveTripKeepsIndexed(trips, id, TripMatched, Some(s.0.candidates[s.0.i]));
    }
  }

  lemma {:induction false} RunKeepsIndexed(cfg: Config, env: Env, job: Job, db: Db, n: nat)
    requires Indexed(db.trips)
    ensures Indexed(Started(cfg, env, job, db, n).1.trips)
  {
    if n > 0 {
      RunKeepsIndexed(cfg, env, job, db, n - 1);
      var s := Started(cfg, env, job, db, n - 1);
      var t := Move(cfg, env, s);
      assert Started(cfg, env, job, db, n) == t;
      MoveKeepsIndexed(cfg, env, s);
    }
  }

  /** A Run resuming an OFFERED trip leaves it OFFERED unless it ends without an error. */
  predicate StillOpen(run: Run, db: Db) {
    && !run.pc.MarkOffered?
    && if run.pc.Done? && run.pc.result.Matched?
       then InState(db, run.trip, TripMatched) && run.trip !in db.trips.offered
       else if run.pc.Done? && run.pc.result.Unmatched?
       then InState(db, run.trip, TripUnfulfilled) && run.trip !in db.trips.offered
       else InState(db, run.trip, TripOffered)
  }

  lemma MoveKeepsOpen(cfg: Config, env: Env, s: (Run, Db))
    requires InRange(s.0) && StillOpen(s.0, s.1)
    ensures var t := Move(cfg, env, s); StillOpen(t.0, t.1)
  {
  }

  lemma {:induction false} ResumedTripStaysOpen(cfg: Config, env: Env, job: Job, db: Db, n: nat)
    requires InState(db, job.trip, TripOffered)
    ensures var t := Started(cfg, env, job, db, n); StillOpen(t.0, t.1) && t.0.trip == job.trip
  {
    if n > 0 {
      ResumedTripStaysOpen(cfg, env, job, db, n - 1);
      var s := Started(cfg, env, job, db, n - 1);
      var t := Move(cfg, env, s);
      assert Started(cfg, env, job, db, n) == t;
      MoveKeepsOpen(cfg, env, s);
      MoveTouchesOwnTrip(cfg, env, s);
    }
  }

  predicate ExpiresWithin(cfg: Config, db: Db, trip: TripId) {
    trip in db.offers.offers ==> db.offers.offers[trip].expiresAt <= db.now + cfg.window + OFFER_RECORD_GRACE
  }

  lemma MoveKeepsExpiry(cfg: Config, env: Env, s: (Run, Db), trip: TripId)
    requires InRange(s.0) && ExpiresWithin(cfg, s.1, trip)
    ensures ExpiresWithin(cfg, Move(cfg, env, s).1, trip)
  {
  }

  lemma {:induction false} RunKeepsExpiry(cfg: Config, env: Env, job: Job, db: Db, n: nat)
    requires ExpiresWithin(cfg, db, job.trip)
    ensures ExpiresWithin(cfg, Started(cfg, env, job, db, n).1, job.trip)
  {
    if n > 0 {
      RunKeepsExpiry(cfg, env, job, db, n - 1);
      var s := Started(cfg, env, job, db, n - 1);
      var t := Move(cfg, env, s);
      assert Started(cfg, env, job, db, n) == t;
      MoveKeepsExpiry(cfg, env, s, job.trip);
    }
  }

  lemma MoveKeepsTrip(cfg: Config, env: Env, s: (Run, Db))
    requires InRange(s.0)
    ensures s.1.trips.trips.Keys == Move(cfg, env, s).1.trips.trips.Keys
  {
  }

  lemma {:induction false} RunKeepsTrip(cfg: Config, env: Env, job: Job, db: Db, n: nat)
    ensures Started(cfg, env, job, db, n).1.trips.trips.Keys == db.trips.trips.Keys
  {
    if n > 0 {
      RunKeepsTrip(cfg, env, job, db, n - 1);
      var s := Started(cfg, env, job, db, n - 1);
      var t := Move(cfg, env, s);
      assert Started(cfg, env, job, db, n) == t;
      MoveKeepsTrip(cfg, env, s);
    }
  }

  /** Stopped after any number of calls, a Run has left its trip resolved, untouched in REQUESTED, or OFFERED and listed
      for recovery with no offer that outlives one window and grace. */
  lemma CrashLeavesTripRecoverable(cfg: Config, env: Env, job: Job, db: Db, n: nat, later: nat)
    requires Indexed(db.trips) && job.trip in db.trips.trips && ExpiresWithin(cfg, db, job.trip)
    requires later >= Started(cfg, env, job, db, n).1.now + cfg.window + OFFER_RECORD_GRACE
    ensures var crashed := Started(cfg, env, job, db, n).1;
            && Indexed(crashed.trips)
            && (Resolved(crashed, job.trip)
                || InState(crashed, job.trip, TripRequested) || InState(crashed, job.trip, TripOffered))
            && (InState(crashed, job.trip, TripOffered)
                ==> job.trip in crashed.trips.offered && !LiveOffer(crashed.offers, job.trip, later))
  {
    RunKeepsTrip(cfg, env, job, db, n);
    RunKeepsIndexed(cfg, env, job, db, n);
    RunKeepsExpiry(cfg, env, job, db, n);
  }
}
