/** The offer loop as it runs: a method over the stores, proved to take exactly the steps of the Protocol machine. */
module Dispatching {
  import opened StateMachine
  import opened StoreSpec
  import opened Protocol
  import opened Isolation
  import opened Stores

  class Publisher {
    var events: seq<Event>

    constructor ()
      ensures events == []
    {
      events := [];
    }

    method Publish(e: Event)
      modifies this
      ensures events == old(events) + [e]
    {
      events := events + [e];
    }
  }

  /** A place in one execution of Run: n steps along the machine's path, begun with `heard` already published. */
  datatype Point = Point(path: nat -> (Run, Db), heard: seq<Event>, n: nat, run: Run)

  lemma PathSteps(cfg: Config, env: Env, path: nat -> (Run, Db), n: nat)
    requires IsMachine(cfg, env, path) && !path(n).0.pc.Done?
    ensures InRange(path(n).0)
    ensures path(n + 1) == Step(cfg, path(n).0, path(n).1.(now := ClockAt(cfg, env, path(n).0, path(n).1.now)),
                                Hears(cfg, env.answers(path(n).0.trip, path(n).0.rounds)).0, env.fails(path(n).0.steps))
  {
    PathMoves(cfg, env, path, n);
  }

  class Dispatcher {
    const offers: OfferStore
    const trips: TripStore
    const drivers: DriverStore
    const publisher: Publisher
    const cfg: Config

    constructor (offers: OfferStore, trips: TripStore, drivers: DriverStore, publisher: Publisher, cfg: Config)
      ensures this.offers == offers && this.trips == trips && this.drivers == drivers
      ensures this.publisher == publisher && this.cfg == cfg
    {
      this.offers := offers;
      this.trips := trips;
      this.drivers := drivers;
      this.publisher := publisher;
      this.cfg := cfg;
    }

    function Snapshot(ctx: Context): Db
      reads drivers, trips, offers, ctx
    {
      Db(drivers.records, trips.Contents(), offers.Contents(), ctx.now)
    }

    /** The stores, the clock and the published events are those the machine has at p. */
    ghost predicate Reached(ctx: Context, p: Point)
      reads drivers, trips, offers, ctx, publisher
    {
      && IsMachine(cfg, ctx.env, p.path)
      && p.path(p.n) == (p.run, Snapshot(ctx))
      && (p.run.pc.Done? || p.run.steps == ctx.steps)
      && publisher.events == p.heard + p.run.trace
    }

    /** q is further along the same execution, of the same request, as p. */
    ghost predicate Onward(p: Point, q: Point) {
      && q.path == p.path && q.heard == p.heard
      && q.run.trip == p.run.trip && q.run.cell == p.run.cell && q.run.candidates == p.run.candidates
    }

    /** At the loop head, with the loop's variables. */
    ghost predicate AtHead(run: Run, i: nat, rounds: nat, backoff: nat) {
      && run.i == i && run.rounds == rounds
      && run.pc == (if i < |run.candidates| && rounds < cfg.maxRounds then Claim else GiveUp)
      && (run.pc.Claim? ==> run.backoff == backoff)
    }

    function Returned(matched: bool, driver: DriverId, err: Option<Err>): Result {
      if err.Some? then Failed(err.value) else if matched then Matched(driver) else Unmatched
    }

    ghost function Next(p: Point): Point {
      p.(n := p.n + 1, run := p.path(p.n + 1).0)
    }

    method PublishTrip(state: TripState, trip: TripId, cell: Cell, d: Option<DriverId>)
      modifies publisher
      ensures publisher.events == old(publisher.events) + [TripEvent(trip, state, cell, d)]
    {
      publisher.Publish(TripEvent(trip, state, cell, d));
    }

    /** The trip is read, and marked OFFERED unless it already is. */
    method Enter(ctx: Context, trip: TripId, cell: Cell, candidates: seq<DriverId>, ghost p: Point)
      returns (err: Option<Err>, ghost q: Point)
      requires Reached(ctx, p) && p.run == Begin(Job(trip, cell, candidates, p.run.steps), cfg.base)
      requires trip == p.run.trip && cell == p.run.cell && candidates == p.run.candidates
      modifies ctx, trips, publisher
      ensures Reached(ctx, q) && Onward(p, q)
      ensures if err.Some? then q.run.pc == Done(Failed(err.value))
              else if candidates == [] then q.run.pc.GiveUp?
              else AtHead(q.run, 0, 0, cfg.base)
      ensures publisher.events
              == if err.None? && candidates != []
                    && old(trip in trips.trips && trips.trips[trip].state == TripRequested)
                 then old(publisher.events) + [TripEvent(trip, TripOffered, cell, None)]
                 else old(publisher.events)
    {
      q := p;
      var getErr, rec := trips.GetTrip(ctx, trip);
      PathSteps(cfg, ctx.env, q.path, q.n);
      q := Next(q);
      if getErr.Some? {
        return getErr, q;
      }
      if Terminal(rec.value.state) {
        return Some(TripAlreadyTerminal(rec.value.state)), q;
      }
      if |candidates| == 0 {
        return None, q;
      }
      if rec.value.state == TripRequested {
        err := trips.TransitionTo(ctx, trip, TripOffered, None);
        PathSteps(cfg, ctx.env, q.path, q.n);
        q := Next(q);
        if err.Some? {
          return err, q;
        }
        PublishTrip(TripOffered, trip, cell, None);
        return None, q;
      }
      err := None;
    }

    /** The driver is moved to OFFERED; taken means another trip got there first. */
    method ClaimDriver(ctx: Context, d: DriverId, ghost p: Point)
      returns (err: Option<Err>, taken: bool, ghost q: Point)
      requires Reached(ctx, p) && p.run.pc.Claim? && p.run.i < |p.run.candidates| && d == p.run.candidates[p.run.i]
      modifies ctx, drivers`records
      ensures Reached(ctx, q) && Onward(p, q)
      ensures if err.Some? then q.run.pc == Done(Failed(err.value))
              else if taken then AtHead(q.run, p.run.i + 1, p.run.rounds, p.run.backoff)
              else && q.run.pc.Open? && q.run.i == p.run.i && q.run.rounds == p.run.rounds + 1
                   && q.run.backoff == p.run.backoff
    {
      q := p;
      taken := false;
      err := drivers.SetState(ctx, d, Offered);
      PathSteps(cfg, ctx.env, q.path, q.n);
      q := Next(q);
      if err.Some? && err.value.IllegalDriver? {
        err, taken := None, true;
      }
    }

    /** CreateOffer, then the wait for an answer. */
    method Ask(ctx: Context, trip: TripId, cell: Cell, d: DriverId, round: nat, ghost p: Point)
      returns (err: Option<Err>, resp: Response, ghost q: Point)
      requires Reached(ctx, p) && p.run.pc.Open? && p.run.i < |p.run.candidates|
      requires trip == p.run.trip && cell == p.run.cell && d == p.run.candidates[p.run.i] && round == p.run.rounds
      modifies ctx, offers, publisher
      ensures Reached(ctx, q) && Onward(p, q)
      ensures if err.Some? then q.run.pc == Done(Failed(err.value))
              else && q.run.pc == Settle(resp) && q.run.i == p.run.i && q.run.rounds == p.run.rounds
                   && q.run.backoff == p.run.backoff
    {
      q := p;
      resp := NoResponse;
      err := offers.CreateOffer(ctx, trip, d, round, cfg.window + OFFER_RECORD_GRACE);
      PathSteps(cfg, ctx.env, q.path, q.n);
      q := Next(q);
      if err.Some? {
        return;
      }
      publisher.Publish(OfferEvent(trip, d, round, OfferPending, cell));
      assert Reached(ctx, q);
      resp := ctx.AwaitResponse(trip, round, cfg);
      PathSteps(cfg, ctx.env, q.path, q.n);
      q := Next(q);
    }

    /** The answer, or its absence, is written to the offer and published. */
    method Record(ctx: Context, trip: TripId, cell: Cell, d: DriverId, round: nat, resp: Response, ghost p: Point)
      returns (err: Option<Err>, ghost q: Point)
      requires Reached(ctx, p) && p.run.pc == Settle(resp) && p.run.i < |p.run.candidates|
      requires trip == p.run.trip && cell == p.run.cell && d == p.run.candidates[p.run.i] && round == p.run.rounds
      modifies ctx, offers, publisher
      ensures Reached(ctx, q) && Onward(p, q)
      ensures if err.Some? then q.run.pc == Done(Failed(err.value))
              else q.run.pc == (if resp == Accepted then Engage else Release)
                   && q.run.i == p.run.i && q.run.rounds == p.run.rounds && q.run.backoff == p.run.backoff
    {
      q := p;
      match resp {
        case Accepted =>
          err := offers.SetOfferState(ctx, trip, d, OfferAccepted);
        case Declined =>
          err := offers.SetOfferState(ctx, trip, d, OfferDeclined);
        case NoResponse =>
          err := offers.SetOfferState(ctx, trip, d, OfferTimedOut);
          if err == Some(OfferNotFound) {
            err := None;
          }
      }
      PathSteps(cfg, ctx.env, q.path, q.n);
      q := Next(q);
      if err.Some? {
        return;
      }
      publisher.Publish(OfferEvent(trip, d, round, Outcome(resp), cell));
    }

    /** One round with a claimed driver, up to the recorded answer. */
    method Offer(ctx: Context, trip: TripId, cell: Cell, d: DriverId, round: nat, ghost p: Point)
      returns (err: Option<Err>, resp: Response, ghost q: Point)
      requires Reached(ctx, p) && p.run.pc.Open? && p.run.i < |p.run.candidates|
      requires trip == p.run.trip && cell == p.run.cell && d == p.run.candidates[p.run.i] && round == p.run.rounds
      modifies ctx, offers, publisher
      ensures Reached(ctx, q) && Onward(p, q)
      ensures if err.Some? then q.run.pc == Done(Failed(err.value))
              else q.run.pc == (if resp == Accepted then Engage else Release)
                   && q.run.i == p.run.i && q.run.rounds == p.run.rounds && q.run.backoff == p.run.backoff
    {
      err, resp, q := Ask(ctx, trip, cell, d, round, p);
      if err.None? {
        err, q := Record(ctx, trip, cell, d, round, resp, q);
      }
    }

    /** The accepting driver goes EN_ROUTE; a driver record already moved elsewhere does not stop the match. */
    method SendDriver(ctx: Context, d: DriverId, ghost p: Point) returns (err: Option<Err>, ghost q: Point)
      requires Reached(ctx, p) && p.run.pc.Engage? && p.run.i < |p.run.candidates| && d == p.run.candidates[p.run.i]
      modifies ctx, drivers`records
      ensures Reached(ctx, q) && Onward(p, q)
      ensures if err.Some? then q.run.pc == Done(Failed(err.value)) else q.run.pc.Commit? && q.run.i == p.run.i
    {
      q := p;
      err := drivers.SetState(ctx, d, EnRoute);
      PathSteps(cfg, ctx.env, q.path, q.n);
      q := Next(q);
      if err.Some? && err.value.IllegalDriver? {
        err := None;
      }
    }

    /** The trip is marked MATCHED with the driver who accepted. */
    method Conclude(ctx: Context, trip: TripId, cell: Cell, d: DriverId, ghost p: Point)
      returns (err: Option<Err>, ghost q: Point)
      requires Reached(ctx, p) && p.run.pc.Engage? && p.run.i < |p.run.candidates|
      requires trip == p.run.trip && cell == p.run.cell && d == p.run.candidates[p.run.i]
      modifies ctx, drivers`records, trips, publisher
      ensures Reached(ctx, q) && Onward(p, q)
      ensures q.run.pc == Done(if err.Some? then Failed(err.value) else Matched(d))
    {
      err, q := SendDriver(ctx, d, p);
      if err.Some? {
        return;
      }
      err := trips.TransitionTo(ctx, trip, TripMatched, Some(d));
      PathSteps(cfg, ctx.env, q.path, q.n);
      q := Next(q);
      if err.Some? {
        return;
      }
      PublishTrip(TripMatched, trip, cell, Some(d));
    }

    method LetGo(ctx: Context, d: DriverId, ghost p: Point) returns (err: Option<Err>, ghost q: Point)
      requires Reached(ctx, p) && p.run.pc.Release? && p.run.i < |p.run.candidates| && d == p.run.candidates[p.run.i]
      modifies ctx, drivers`records
      ensures Reached(ctx, q) && Onward(p, q)
      ensures if err.Some? then q.run.pc == Done(Failed(err.value))
              else q.run == AfterRound(cfg, p.run.(steps := q.run.steps), ctx.now)
    {
      q := p;
      err := drivers.SetState(ctx, d, Available);
      PathSteps(cfg, ctx.env, q.path, q.n);
      q := Next(q);
      if err.Some? && err.value.IllegalDriver? {
        err := None;
      }
    }

    /** The driver is released and, when another round is to come, the backoff slept and doubled. */
    method Yield(ctx: Context, d: DriverId, size: nat, i: nat, rounds: nat, backoff: nat, ghost p: Point)
      returns (err: Option<Err>, next: nat, ghost q: Point)
      requires Reached(ctx, p) && p.run.pc.Release? && p.run.i == i < |p.run.candidates| == size
               && d == p.run.candidates[i]
      requires p.run.rounds == rounds && p.run.backoff == backoff
      modifies ctx, drivers`records
      ensures Reached(ctx, q) && Onward(p, q)
      ensures if err.Some? then q.run.pc == Done(Failed(err.value)) else AtHead(q.run, i + 1, rounds, next)
    {
      next := backoff;
      err, q := LetGo(ctx, d, p);
      if err.Some? {
        return;
      }
      if i + 1 < size && rounds < cfg.maxRounds {
        err := ctx.Sleep(backoff);
        PathSteps(cfg, ctx.env, q.path, q.n);
        q := Next(q);
        if err.Some? {
          return;
        }
        next := backoff * 2;
        if next > cfg.max {
          next := cfg.max;
        }
      }
    }

    method MarkUnfulfilled(ctx: Context, trip: TripId, cell: Cell, ghost p: Point)
      returns (err: Option<Err>, ghost q: Point)
      requires Reached(ctx, p) && p.run.pc.GiveUp? && trip == p.run.trip && cell == p.run.cell
      modifies ctx, trips, publisher
      ensures Reached(ctx, q) && Onward(p, q)
      ensures q.run.pc == Done(if err.Some? then Failed(err.value) else Unmatched)
    {
      q := p;
      err := trips.TransitionTo(ctx, trip, TripUnfulfilled, None);
      PathSteps(cfg, ctx.env, q.path, q.n);
      q := Next(q);
      if err.Some? {
        return;
      }
      PublishTrip(TripUnfulfilled, trip, cell, None);
    }

    /** Run: whatever it returns, the stores, the clock, the events and the result are those of the machine's final
        state. */
    method Run(ctx: Context, trip: TripId, cell: Cell, candidates: seq<DriverId>)
      returns (matched: bool, driver: DriverId, err: Option<Err>, ghost steps: nat)
      modifies ctx, drivers`records, trips, offers, publisher
      ensures var job := Job(trip, cell, candidates, old(ctx.steps));
              var (run, db) := Started(cfg, ctx.env, job, old(Snapshot(ctx)), steps);
              && run.pc == Done(Returned(matched, driver, err))
              && Snapshot(ctx) == db
              && publisher.events == old(publisher.events) + run.trace
    {
      ghost var job := Job(trip, cell, candidates, ctx.steps);
      ghost var db := Snapshot(ctx);
      ghost var path := (n: nat) => Started(cfg, ctx.env, job, db, n);
      assert IsPath(cfg, ctx.env, job, db, path);
      ghost var p := Point(path, publisher.events, 0, Begin(job, cfg.base));
      assert p.path(0) == (p.run, db);
      assert publisher.events == p.heard + p.run.trace;
      matched, driver, err, p := Search(ctx, trip, cell, candidates, p);
      steps := p.n;
    }

    /** The body of Run, from reading the trip to its outcome. */
    method Search(ctx: Context, trip: TripId, cell: Cell, candidates: seq<DriverId>, ghost p: Point)
      returns (matched: bool, driver: DriverId, err: Option<Err>, ghost q: Point)
      requires Reached(ctx, p) && p.run == Begin(Job(trip, cell, candidates, p.run.steps), cfg.base)
      modifies ctx, drivers`records, trips, offers, publisher
      ensures Reached(ctx, q) && Onward(p, q)
      ensures q.run.pc == Done(Returned(matched, driver, err))
    {
      matched, driver := false, "";
      err, q := Enter(ctx, trip, cell, candidates, p);
      if err.Some? {
        return;
      }
      var backoff := cfg.base;
      var rounds := 0;
      var i := 0;
      while i < |candidates| && rounds < cfg.maxRounds
        invariant i <= |candidates|
        invariant Reached(ctx, q) && Onward(p, q)
        invariant if candidates == [] then q.run.pc.GiveUp? else AtHead(q.run, i, rounds, backoff)
        decreases |candidates| - i
      {
        var d := candidates[i];
        var taken;
        err, taken, q := ClaimDriver(ctx, d, q);
        if err.Some? {
          return;
        }
        if taken {
          i := i + 1;
          continue;
        }
        rounds := rounds + 1;
        var resp;
        err, resp, q := Offer(ctx, trip, cell, d, rounds, q);
        if err.Some? {
          return;
        }
        if resp == Accepted {
          err, q := Conclude(ctx, trip, cell, d, q);
          if err.None? {
            matched, driver := true, d;
          }
          return;
        }
        err, backoff, q := Yield(ctx, d, |candidates|, i, rounds, backoff, q);
        if err.Some? {
          return;
        }
        i := i + 1;
      }
      err, q := MarkUnfulfilled(ctx, trip, cell, q);
    }
  }
}
