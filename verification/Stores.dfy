/** The Redis-backed stores of internal/store as mutable objects, and the call context they run under. */
module Stores {
  import opened StateMachine
  import opened StoreSpec
  import opened Protocol
  import opened Isolation
  import opened DriverIndex

  /** The ctx every call carries: what fails, what the hub will deliver, and the clock. */
  class Context {
    const env: Env
    var now: nat
    var steps: nat

    constructor (env: Env, now: nat)
      ensures this.env == env && this.now == now && steps == 0
    {
      this.env := env;
      this.now := now;
      steps := 0;
    }

    ghost predicate Down()
      reads this
    {
      env.fails(steps)
    }

    /** One command sent to Redis; down means it came back with an I/O error and did nothing. */
    method Call() returns (down: bool)
      modifies this
      ensures down == old(Down()) && steps == old(steps) + 1 && now == old(now)
    {
      down := env.fails(steps);
      steps := steps + 1;
    }

    /** awaitResponse: blocks until the hub delivers or the window ends. */
    method AwaitResponse(trip: TripId, round: nat, cfg: Config) returns (resp: Response)
      modifies this
      ensures resp == Hears(cfg, env.answers(trip, round)).0
      ensures now == old(now) + Hears(cfg, env.answers(trip, round)).1 && steps == old(steps) + 1
    {
      var answer := env.answers(trip, round);
      if answer.Reply? && answer.after <= cfg.window {
        resp := answer.resp;
        now := now + answer.after;
      } else {
        resp := NoResponse;
        now := now + cfg.window;
      }
      steps := steps + 1;
    }

    /** sleep: ends early, with the context's error, only when the context is done. */
    method Sleep(d: nat) returns (err: Option<Err>)
      modifies this
      ensures steps == old(steps) + 1
      ensures if old(Down()) then err == Some(Io) && now == old(now) else err == None && now == old(now) + d
    {
      var down := Call();
      if down {
        return Some(Io);
      }
      now := now + d;
      err := None;
    }
  }

  class DriverStore {
    var records: map<DriverId, DriverRecord>
    var members: map<Cell, set<DriverId>>

    constructor ()
      ensures Contents() == EMPTY
    {
      records := map[];
      members := map[];
    }

    function Contents(): Index
      reads this
    {
      Index(records, members)
    }

    /** UpdateLocation: the script, then HSETNX; None for a position that is in no cell. */
    method UpdateLocation(ctx: Context, d: DriverId, at: Location, cellFor: Location -> Option<Cell>)
      returns (err: Option<Err>)
      modifies this, ctx
      ensures ctx.now == old(ctx.now)
      ensures err.None? ==> cellFor(at).Some? && Contents() == Ping(old(Contents()), d, at, cellFor(at).value, ctx.now)
      ensures err.None? ==>
                && d in records && records[d].at == at && cellFor(at) == Some(records[d].cell)
                && records[d].updatedAt == ctx.now && records[d].availableSince.Some?
                && records[d].state == (if d in old(records) then old(records)[d].state else Available)
                && forall x :: x != d ==> (x in records <==> x in old(records))
                                          && (x in records ==> records[x] == old(records)[x])
      ensures err.Some? ==>
                || Contents() == old(Contents())
                || (cellFor(at).Some? && Contents() == Relocate(old(Contents()), d, at, cellFor(at).value, ctx.now))
    {
      var cell := cellFor(at);
      if cell.None? {
        return Some(SearchFailed);
      }
      var down := ctx.Call();
      if down {
        return Some(Io);
      }
      if d in records && records[d].cell != cell.value {
        members := members[records[d].cell := Members(members, records[d].cell) - {d}];
      }
      members := members[cell.value := Members(members, cell.value) + {d}];
      records := records[d := Located(records, d, at, cell.value, ctx.now)];
      down := ctx.Call();
      if down {
        return Some(Io);
      }
      records := records[d := Stamped(records[d], ctx.now)];
      err := None;
    }

    method SetState(ctx: Context, d: DriverId, to: DriverState) returns (err: Option<Err>)
      modifies this`records, ctx
      ensures ctx.steps == old(ctx.steps) + 1 && ctx.now == old(ctx.now)
      ensures if old(ctx.Down()) then err == Some(Io) && records == old(records)
              else DriverReply(records, err) == SetDriver(old(records), d, to, ctx.now)
    {
      var down := ctx.Call();
      if down {
        return Some(Io);
      }
      if d !in records {
        return Some(DriverNotFound);
      }
      if !DriverMay(records[d].state, to) {
        return Some(IllegalDriver(records[d].state, to));
      }
      if to == Available {
        records := records[d := records[d].(state := to, availableSince := Some(ctx.now))];
      } else {
        records := records[d := records[d].(state := to)];
      }
      err := None;
    }

    /** DriversInCell: each live member once, in some order; dead members leave the set. */
    method DriversInCell(ctx: Context, c: Cell) returns (err: Option<Err>, live: seq<DriverId>)
      modifies this`members, ctx
      ensures ctx.now == old(ctx.now)
      ensures err.None? ==> (forall d :: d in live <==> d in Live(old(Contents()), c))
      ensures err.None? ==> forall i, j :: 0 <= i < j < |live| ==> live[i] != live[j]
      ensures err.None? ==> Contents() == Swept(old(Contents()), c)
      ensures err.Some? ==> Contents() == old(Contents())
    {
      live := [];
      var down := ctx.Call();
      if down {
        return Some(Io), [];
      }
      var ids := Members(members, c);
      if ids == {} {
        return None, [];
      }
      down := ctx.Call();
      if down {
        return Some(Io), [];
      }
      var left, stale := ids, {};
      while left != {}
        invariant left <= ids && stale <= ids && left !! stale
        invariant forall d :: d in live <==> d in ids - left && d in records
        invariant forall d :: d in stale <==> d in ids - left && d !in records
        invariant forall i, j :: 0 <= i < j < |live| ==> live[i] != live[j]
        decreases left
      {
        var id :| id in left;
        if id in records {
          live := live + [id];
        } else {
          stale := stale + {id};
        }
        left := left - {id};
      }
      if stale != {} {
        down := ctx.Call();
        if down {
          return Some(Io), [];
        }
        members := members[c := ids - stale];
        assert ids - stale == Live(old(Contents()), c);
      } else {
        assert forall d :: d in ids ==> d in records;
      }
      err := None;
    }

    /** GetDrivers: the records of those ids that still have one. */
    method GetDrivers(ctx: Context, ids: seq<DriverId>) returns (err: Option<Err>, found: map<DriverId, DriverRecord>)
      modifies ctx
      ensures ctx.now == old(ctx.now)
      ensures err.None? ==> found == map d | d in ids && d in records :: records[d]
    {
      found := map[];
      if |ids| == 0 {
        return None, found;
      }
      var down := ctx.Call();
      if down {
        return Some(Io), map[];
      }
      for i := 0 to |ids|
        invariant found == map d | d in ids[..i] && d in records :: records[d]
      {
        assert ids[..i + 1] == ids[..i] + [ids[i]];
        if ids[i] in records {
          found := found[ids[i] := records[ids[i]]];
        }
      }
      assert ids[..|ids|] == ids;
      err := None;
    }
  }

  class TripStore {
    var trips: map<TripId, TripRecord>
    var offered: set<TripId>

    constructor ()
      ensures trips == map[] && offered == {}
    {
      trips := map[];
      offered := {};
    }

    function Contents(): TripTable
      reads this
    {
      TripTable(trips, offered)
    }

    method GetTrip(ctx: Context, id: TripId) returns (err: Option<Err>, trip: Option<TripRecord>)
      modifies ctx
      ensures ctx.steps == old(ctx.steps) + 1 && ctx.now == old(ctx.now)
      ensures if old(ctx.Down()) then err == Some(Io)
              else if id !in trips then err == Some(TripNotFound)
              else err == None && trip == Some(trips[id])
    {
      var down := ctx.Call();
      if down {
        return Some(Io), None;
      }
      if id !in trips {
        return Some(TripNotFound), None;
      }
      return None, Some(trips[id]);
    }

    /** transitionTo, and so SetTripState, MarkMatched and MarkUnfulfilled. */
    method TransitionTo(ctx: Context, id: TripId, to: TripState, driver: Option<DriverId>) returns (err: Option<Err>)
      modifies this, ctx
      ensures ctx.steps == old(ctx.steps) + 1 && ctx.now == old(ctx.now)
      ensures if old(ctx.Down()) then err == Some(Io) && Contents() == old(Contents())
              else TripReply(Contents(), err) == MoveTrip(old(Contents()), id, to, driver)
    {
      var down := ctx.Call();
      if down {
        return Some(Io);
      }
      if id !in trips {
        return Some(TripNotFound);
      }
      if !TripMay(trips[id].state, to) {
        return Some(IllegalTrip(trips[id].state, to));
      }
      var matched := if driver.Some? then driver else trips[id].matchedDriver;
      trips := trips[id := trips[id].(state := to, matchedDriver := matched)];
      match to {
        case TripOffered => offered := offered + {id};
        case TripMatched => offered := offered - {id};
        case TripUnfulfilled => offered := offered - {id};
        case TripRequested =>
      }
      err := None;
    }

    /** OfferedTrips: SMEMBERS of the offered index, in some order. */
    method OfferedTrips(ctx: Context) returns (err: Option<Err>, ids: seq<TripId>)
      modifies ctx
      ensures ctx.steps == old(ctx.steps) + 1 && ctx.now == old(ctx.now)
      ensures err.None? ==> (forall t :: t in ids <==> t in offered)
      ensures err.None? ==> forall i, j :: 0 <= i < j < |ids| ==> ids[i] != ids[j]
    {
      ids := [];
      var down := ctx.Call();
      if down {
        return Some(Io), [];
      }
      var left := offered;
      while left != {}
        invariant left <= offered
        invariant forall t :: t in ids <==> t in offered - left
        invariant forall i, j :: 0 <= i < j < |ids| ==> ids[i] != ids[j]
        decreases left
      {
        var t :| t in left;
        assert t !in ids;
        ids := ids + [t];
        left := left - {t};
      }
      err := None;
    }
  }

  class OfferStore {
    var offers: map<TripId, OfferRecord>
    var openFor: map<DriverId, OpenOffer>

    constructor ()
      ensures offers == map[] && openFor == map[]
    {
      offers := map[];
      openFor := map[];
    }

    function Contents(): OfferTable
      reads this
    {
      OfferTable(offers, openFor)
    }

    method CreateOffer(ctx: Context, id: TripId, d: DriverId, round: nat, ttl: nat) returns (err: Option<Err>)
      modifies this, ctx
      ensures ctx.steps == old(ctx.steps) + 1 && ctx.now == old(ctx.now)
      ensures if old(ctx.Down()) then err == Some(Io) && Contents() == old(Contents())
              else err == None && Contents() == OpenOfferFor(old(Contents()), id, d, round, ttl, ctx.now)
    {
      var down := ctx.Call();
      if down {
        return Some(Io);
      }
      offers := offers[id := OfferRecord(d, round, OfferPending, ctx.now, ctx.now + ttl)];
      openFor := openFor[d := OpenOffer(id, ctx.now + ttl)];
      err := None;
    }

    method GetOffer(ctx: Context, id: TripId) returns (err: Option<Err>, offer: Option<OfferRecord>)
      modifies ctx
      ensures ctx.steps == old(ctx.steps) + 1 && ctx.now == old(ctx.now)
      ensures if old(ctx.Down()) then err == Some(Io)
              else if !LiveOffer(Contents(), id, ctx.now) then err == Some(OfferNotFound)
              else err == None && offer == Some(offers[id])
    {
      var down := ctx.Call();
      if down {
        return Some(Io), None;
      }
      if id !in offers || offers[id].expiresAt <= ctx.now {
        return Some(OfferNotFound), None;
      }
      return None, Some(offers[id]);
    }

    method CurrentOfferFor(ctx: Context, d: DriverId) returns (err: Option<Err>, trip: Option<TripId>)
      modifies ctx
      ensures ctx.steps == old(ctx.steps) + 1 && ctx.now == old(ctx.now)
      ensures if old(ctx.Down()) then err == Some(Io)
              else && trip == CurrentOffer(Contents(), d, ctx.now)
                   && err == if trip.None? then Some(OfferNotFound) else None
    {
      trip := None;
      var down := ctx.Call();
      if down {
        return Some(Io), None;
      }
      if d !in openFor || openFor[d].expiresAt <= ctx.now {
        return Some(OfferNotFound), None;
      }
      return None, Some(openFor[d].trip);
    }

    method SetOfferState(ctx: Context, id: TripId, d: DriverId, to: OfferState) returns (err: Option<Err>)
      modifies this, ctx
      ensures ctx.steps == old(ctx.steps) + 1 && ctx.now == old(ctx.now)
      ensures if old(ctx.Down()) then err == Some(Io) && Contents() == old(Contents())
              else OfferReply(Contents(), err) == SettleOffer(old(Contents()), id, d, to, ctx.now)
    {
      var readErr, offer := GetOffer(ctx, id);
      if readErr.Some? {
        return readErr;
      }
      if offer.value.driver != d {
        return Some(OfferStale);
      }
      if !OfferMay(offer.value.state, to) {
        return Some(IllegalOffer(offer.value.state, to));
      }
      offers := offers[id := offers[id].(state := to)];
      openFor := openFor - {d};
      err := None;
    }
  }
}
