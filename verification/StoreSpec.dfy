/** What the Redis records hold, and what one atomic store call does to them. Every function here is one step of the
    model; the store classes are proved to compute it. */
module StoreSpec {
  import opened StateMachine

  type DriverId = string
  type TripId = string
  type Cell = nat

  datatype Option<+T> = None | Some(value: T)

  /** The Go error values the dispatch pipeline tells apart. */
  datatype Err =
    | TripNotFound
    | IllegalTrip(tripFrom: TripState, tripTo: TripState)
    | TripAlreadyTerminal(state: TripState)
    | DriverNotFound
    | IllegalDriver(driverFrom: DriverState, driverTo: DriverState)
    | OfferNotFound
    | OfferStale
    | IllegalOffer(offerFrom: OfferState, offerTo: OfferState)
    | SearchFailed
    | Io

  datatype Location = Location(lat: real, lng: real)

  datatype DriverRecord = DriverRecord(
    at: Location, cell: Cell, state: DriverState, updatedAt: nat, availableSince: Option<nat>)

  datatype TripRecord = TripRecord(origin: Location, state: TripState, matchedDriver: Option<DriverId>)

  datatype OfferRecord = OfferRecord(driver: DriverId, round: nat, state: OfferState, createdAt: nat, expiresAt: nat)

  datatype OpenOffer = OpenOffer(trip: TripId, expiresAt: nat)

  /** Trip hashes and the set indexing the trips in OFFERED. */
  datatype TripTable = TripTable(trips: map<TripId, TripRecord>, offered: set<TripId>)

  /** Offer hashes by trip, and the driver to trip reverse index. */
  datatype OfferTable = OfferTable(offers: map<TripId, OfferRecord>, openFor: map<DriverId, OpenOffer>)

  datatype Db = Db(drivers: map<DriverId, DriverRecord>, trips: TripTable, offers: OfferTable, now: nat)

  // ---- drivers -------------------------------------------------------------

  datatype DriverReply = DriverReply(drivers: map<DriverId, DriverRecord>, err: Option<Err>)

  /** DriverStore.SetState as one step. */
  function SetDriver(drivers: map<DriverId, DriverRecord>, d: DriverId, to: DriverState, now: nat): DriverReply {
    if d !in drivers then DriverReply(drivers, Some(DriverNotFound))
    else if !DriverMay(drivers[d].state, to) then DriverReply(drivers, Some(IllegalDriver(drivers[d].state, to)))
    else if to == Available then
      DriverReply(drivers[d := drivers[d].(state := to, availableSince := Some(now))], None)
    else DriverReply(drivers[d := drivers[d].(state := to)], None)
  }

  /** The record moveDriverScript writes: state kept, or AVAILABLE for a driver without a hash. */
  function Located(
    drivers: map<DriverId, DriverRecord>, d: DriverId, at: Location, cell: Cell, now: nat): DriverRecord
  {
    if d in drivers then drivers[d].(at := at, cell := cell, updatedAt := now)
    else DriverRecord(at, cell, Available, now, None)
  }

  /** HSETNX available_since. */
  function Stamped(r: DriverRecord, now: nat): DriverRecord {
    if r.availableSince.None? then r.(availableSince := Some(now)) else r
  }

  /** A whole UpdateLocation, as seen by the driver hash. */
  function Pinged(drivers: map<DriverId, DriverRecord>, d: DriverId, at: Location, cell: Cell, now: nat)
    : map<DriverId, DriverRecord>
  {
    drivers[d := Stamped(Located(drivers, d, at, cell, now), now)]
  }

  /** The same drivers have a hash in a and b, and each is where it was. */
  predicate SamePlaces(a: map<DriverId, DriverRecord>, b: map<DriverId, DriverRecord>) {
    && a.Keys == b.Keys
    && forall d :: d in a ==> a[d].at == b[d].at && a[d].cell == b[d].cell && a[d].updatedAt == b[d].updatedAt
  }

  // ---- trips ---------------------------------------------------------------

  datatype TripReply = TripReply(table: TripTable, err: Option<Err>)

  /** TripStore.transitionTo as one step: state, extra field and offered index together. */
  function MoveTrip(t: TripTable, id: TripId, to: TripState, driver: Option<DriverId>): TripReply {
    if id !in t.trips then TripReply(t, Some(TripNotFound))
    else if !TripMay(t.trips[id].state, to) then TripReply(t, Some(IllegalTrip(t.trips[id].state, to)))
    else
      var rec := t.trips[id].(state := to, matchedDriver := if driver.Some? then driver else t.trips[id].matchedDriver);
      TripReply(TripTable(t.trips[id := rec],
                          if to == TripOffered then t.offered + {id}
                          else if Terminal(to) then t.offered - {id}
                          else t.offered),
                None)
  }

  predicate InState(db: Db, trip: TripId, s: TripState) {
    trip in db.trips.trips && db.trips.trips[trip].state == s
  }

  // ---- offers --------------------------------------------------------------

  /** A key with a TTL is gone from the instant its deadline is reached. */
  predicate LiveOffer(o: OfferTable, id: TripId, now: nat) {
    id in o.offers && now < o.offers[id].expiresAt
  }

  function OpenOfferFor(o: OfferTable, id: TripId, d: DriverId, round: nat, ttl: nat, now: nat): OfferTable {
    OfferTable(o.offers[id := OfferRecord(d, round, OfferPending, now, now + ttl)],
               o.openFor[d := OpenOffer(id, now + ttl)])
  }

  /** CurrentOfferFor: the trip the reverse index names, while its entry lasts. */
  function CurrentOffer(o: OfferTable, d: DriverId, now: nat): Option<TripId> {
    if d in o.openFor && now < o.openFor[d].expiresAt then Some(o.openFor[d].trip) else None
  }

  datatype OfferReply = OfferReply(table: OfferTable, err: Option<Err>)

  /** OfferStore.SetOfferState as one step. */
  function SettleOffer(o: OfferTable, id: TripId, d: DriverId, to: OfferState, now: nat): OfferReply {
    if !LiveOffer(o, id, now) then OfferReply(o, Some(OfferNotFound))
    else if o.offers[id].driver != d then OfferReply(o, Some(OfferStale))
    else if !OfferMay(o.offers[id].state, to) then OfferReply(o, Some(IllegalOffer(o.offers[id].state, to)))
    else OfferReply(OfferTable(o.offers[id := o.offers[id].(state := to)], o.openFor - {d}), None)
  }

  /** An offer lasts until its deadline, not through it, for whoever asks about the trip or about the driver. */
  lemma OfferLastsItsTime(
    o: OfferTable, id: TripId, d: DriverId, round: nat, ttl: nat, now: nat, later: nat, id': TripId, d': DriverId)
    ensures var o' := OpenOfferFor(o, id, d, round, ttl, now);
            && (LiveOffer(o', id, later) <==> later < now + ttl)
            && CurrentOffer(o', d, later) == (if later < now + ttl then Some(id) else None)
            && (id' != id ==> (LiveOffer(o', id', later) <==> LiveOffer(o, id', later)))
            && (d' != d ==> CurrentOffer(o', d', later) == CurrentOffer(o, d', later))
  {
  }

  /** An offer is answered once: whatever is recorded of it later, by whomever, is refused, and its driver is not led to
      it again. */
  lemma AnsweredOnce(
    o: OfferTable, id: TripId, d: DriverId, to: OfferState, now: nat, d': DriverId, to': OfferState, later: nat)
    requires SettleOffer(o, id, d, to, now).err.None?
    ensures var o' := SettleOffer(o, id, d, to, now).table;
            && SettleOffer(o', id, d', to', later).err.Some?
            && (d' == d && later < o.offers[id].expiresAt ==>
                  SettleOffer(o', id, d', to', later).err == Some(IllegalOffer(to, to')))
            && CurrentOffer(o', d, later).None?
            && (d' != d ==> CurrentOffer(o', d', later) == CurrentOffer(o, d', later))
            && forall x :: x in o.offers && x != id ==> x in o'.offers && o'.offers[x] == o.offers[x]
  {
  }

  /** What a sweep takes for a dead dispatch: OFFERED, with no live offer. */
  predicate Stuck(db: Db, trip: TripId) {
    InState(db, trip, TripOffered) && !LiveOffer(db.offers, trip, db.now)
  }

  /** The offered set lists exactly the trips whose hash says OFFERED. */
  ghost predicate Indexed(t: TripTable) {
    forall id :: id in t.offered <==> id in t.trips && t.trips[id].state == TripOffered
  }
}
