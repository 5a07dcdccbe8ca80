/** internal/surge/aggregator.go: a pruned, windowed store that answers as the whole event history would. */
module Surge {
  import opened StateMachine
  import opened StoreSpec

  type Time = int

  const DEFAULT_WINDOW: int := 300_000_000_000

  datatype CellState = CellState(openTrips: map<string, Time>, availableDrivers: map<string, Time>)

  const EMPTY := CellState(map[], map[])

  datatype Event =
    | Trip(cell: Cell, id: string, state: string, at: Time)
    | Driver(cell: Cell, id: string, state: string, at: Time)
    | Pruned(now: Time)

  predicate Opens(state: string) {
    state == "REQUESTED" || state == "OFFERED"
  }

  predicate Closes(state: string) {
    state == "MATCHED" || state == "UNFULFILLED"
  }

  // ---- the full history ----------------------------------------------------

  /** When the trip was last seen open in the cell, if its last open-or-close event there left it open. */
  function LastOpen(h: seq<Event>, cell: Cell, id: string): Option<Time> {
    if h == [] then None
    else
      var e := h[|h| - 1];
      if e.Trip? && e.cell == cell && e.id == id && Opens(e.state) then Some(e.at)
      else if e.Trip? && e.cell == cell && e.id == id && Closes(e.state) then None
      else LastOpen(h[..|h| - 1], cell, id)
  }

  /** When the driver last pinged AVAILABLE in the cell, if that was its last ping there. */
  function LastAvailable(h: seq<Event>, cell: Cell, id: string): Option<Time> {
    if h == [] then None
    else
      var e := h[|h| - 1];
      if e.Driver? && e.cell == cell && e.id == id then (if e.state == "AVAILABLE" then Some(e.at) else None)
      else LastAvailable(h[..|h| - 1], cell, id)
  }

  function Ids(h: seq<Event>): set<string> {
    set k | 0 <= k < |h| && !h[k].Pruned? :: h[k].id
  }

  predicate InWindow(seen: Option<Time>, now: Time, window: int) {
    seen.Some? && now - seen.value <= window
  }

  function OpenTrips(h: seq<Event>, cell: Cell, now: Time, window: int): set<string> {
    set id | id in Ids(h) && InWindow(LastOpen(h, cell, id), now, window)
  }

  function AvailableDrivers(h: seq<Event>, cell: Cell, now: Time, window: int): set<string> {
    set id | id in Ids(h) && InWindow(LastAvailable(h, cell, id), now, window)
  }

  datatype Ratio = Finite(value: real) | Infinite

  function RatioOf(open: nat, available: nat): Ratio {
    if open == 0 then Finite(0.0)
    else if available == 0 then Infinite
    else Finite(open as real / available as real)
  }

  /** The ratio computed from every event ever recorded. */
  function FullRatio(h: seq<Event>, cell: Cell, now: Time, window: int): Ratio {
    RatioOf(|OpenTrips(h, cell, now, window)|, |AvailableDrivers(h, cell, now, window)|)
  }

  /** No prune was run for a time after now. */
  ghost predicate PrunesBefore(h: seq<Event>, now: Time) {
    forall k :: 0 <= k < |h| && h[k].Pruned? ==> h[k].now <= now
  }

  lemma {:induction false} SeenIsAnId(h: seq<Event>, cell: Cell, id: string)
    requires LastOpen(h, cell, id).Some? || LastAvailable(h, cell, id).Some?
    ensures id in Ids(h)
  {
    var n := |h| - 1;
    if h[n].Pruned? || h[n].id != id {
      SeenIsAnId(h[..n], cell, id);
      var k :| 0 <= k < n && !h[..n][k].Pruned? && h[..n][k].id == id;
      assert h[k].id == id;
    }
  }

  // ---- what counts as open -------------------------------------------------

  /** The name a trip's state is published under. */
  function TripName(s: TripState): string {
    match s
    case TripRequested => "REQUESTED"
    case TripOffered => "OFFERED"
    case TripMatched => "MATCHED"
    case TripUnfulfilled => "UNFULFILLED"
  }

  function DriverName(s: DriverState): string {
    match s
    case Offline => "OFFLINE"
    case Available => "AVAILABLE"
    case Offered => "OFFERED"
    case EnRoute => "EN_ROUTE"
    case OnTrip => "ON_TRIP"
  }

  /** e reports the trip, in this cell, to be in state s. */
  predicate Reports(e: Event, cell: Cell, id: string, s: TripState) {
    e.Trip? && e.cell == cell && e.id == id && e.state == TripName(s)
  }

  /** No record from the k-th on reports a state of the trip. */
  predicate SilentFrom(h: seq<Event>, k: nat, cell: Cell, id: string) {
    forall j, s :: k <= j < |h| ==> !Reports(h[j], cell, id, s)
  }

  lemma LastSaid(h: seq<Event>, cell: Cell, id: string, s: TripState, e: Event)
    requires Reports(e, cell, id, s)
    ensures LastOpen(h + [e], cell, id) == if Terminal(s) then None else Some(e.at)
  {
    LastAppends(h, e, cell, id);
  }

  lemma NothingSaid(h: seq<Event>, cell: Cell, id: string, e: Event)
    requires forall s :: !Reports(e, cell, id, s)
    ensures LastOpen(h + [e], cell, id) == LastOpen(h, cell, id)
  {
    LastAppends(h, e, cell, id);
    if e.Trip? {
      assert !Reports(e, cell, id, TripRequested) && !Reports(e, cell, id, TripOffered);
      assert !Reports(e, cell, id, TripMatched) && !Reports(e, cell, id, TripUnfulfilled);
    }
  }

  /** The last report decides. */
  lemma {:induction false} LastReportDecides(h: seq<Event>, cell: Cell, id: string, k: nat, s: TripState)
    requires k < |h| && Reports(h[k], cell, id, s) && SilentFrom(h, k + 1, cell, id)
    ensures LastOpen(h, cell, id) == if Terminal(s) then None else Some(h[k].at)
  {
    var n := |h| - 1;
    assert h == h[..n] + [h[n]];
    if k == n {
      LastSaid(h[..n], cell, id, s, h[n]);
    } else {
      NothingSaid(h[..n], cell, id, h[n]);
      LastReportDecides(h[..n], cell, id, k, s);
    }
  }

  lemma {:induction false} OpenWasReported(h: seq<Event>, cell: Cell, id: string) returns (k: nat, s: TripState)
    requires LastOpen(h, cell, id).Some?
    ensures k < |h| && Reports(h[k], cell, id, s) && !Terminal(s) && SilentFrom(h, k + 1, cell, id)
    ensures LastOpen(h, cell, id) == Some(h[k].at)
  {
    var n := |h| - 1;
    assert h == h[..n] + [h[n]];
    if s' :| Reports(h[n], cell, id, s') {
      LastSaid(h[..n], cell, id, s', h[n]);
      k, s := n, s';
    } else {
      NothingSaid(h[..n], cell, id, h[n]);
      k, s := OpenWasReported(h[..n], cell, id);
    }
  }

  /** A trip is demand in a cell exactly when the last state reported of it there is one it can still leave, and was
      reported within the window; a report whose time is exactly the window ago still counts. */
  lemma OpenIff(h: seq<Event>, cell: Cell, id: string, now: Time, window: int)
    ensures id in OpenTrips(h, cell, now, window)
            <==> exists k, s :: 0 <= k < |h| && Reports(h[k], cell, id, s) && !Terminal(s) && now - h[k].at <= window
                                && SilentFrom(h, k + 1, cell, id)
  {
    if LastOpen(h, cell, id).Some? {
      SeenIsAnId(h, cell, id);
      var k, s := OpenWasReported(h, cell, id);
    }
    if k, s :| 0 <= k < |h| && Reports(h[k], cell, id, s) && !Terminal(s) && now - h[k].at <= window
               && SilentFrom(h, k + 1, cell, id)
    {
      LastReportDecides(h, cell, id, k, s);
    }
  }

  /** One more report, of any state of the machine: within the window the trip counts unless the state is terminal. */
  lemma OpenAfterReport(h: seq<Event>, cell: Cell, id: string, s: TripState, at: Time, now: Time, window: int)
    ensures id in OpenTrips(h + [Trip(cell, id, TripName(s), at)], cell, now, window)
            <==> !Terminal(s) && now - at <= window
  {
    var e := Trip(cell, id, TripName(s), at);
    assert Reports(e, cell, id, s);
    LastSaid(h, cell, id, s, e);
    if LastOpen(h + [e], cell, id).Some? {
      SeenIsAnId(h + [e], cell, id);
    }
  }

  predicate Pings(e: Event, cell: Cell, id: string) {
    e.Driver? && e.cell == cell && e.id == id
  }

  predicate NoPingFrom(h: seq<Event>, k: nat, cell: Cell, id: string) {
    forall j :: k <= j < |h| ==> !Pings(h[j], cell, id)
  }

  /** The last ping decides. */
  lemma {:induction false} LastPingDecides(h: seq<Event>, cell: Cell, id: string, k: nat)
    requires k < |h| && Pings(h[k], cell, id) && NoPingFrom(h, k + 1, cell, id)
    ensures LastAvailable(h, cell, id) == if h[k].state == DriverName(Available) then Some(h[k].at) else None
  {
    if k < |h| - 1 {
      LastPingDecides(h[..|h| - 1], cell, id, k);
    }
  }

  lemma {:induction false} AvailableWasPinged(h: seq<Event>, cell: Cell, id: string) returns (k: nat)
    requires LastAvailable(h, cell, id).Some?
    ensures k < |h| && Pings(h[k], cell, id) && h[k].state == DriverName(Available) && NoPingFrom(h, k + 1, cell, id)
    ensures LastAvailable(h, cell, id) == Some(h[k].at)
  {
    k := |h| - 1;
    if !Pings(h[k], cell, id) {
      k := AvailableWasPinged(h[..k], cell, id);
    }
  }

  /** A driver is supply in a cell exactly when the last ping from there said AVAILABLE, within the window. */
  lemma AvailableIff(h: seq<Event>, cell: Cell, id: string, now: Time, window: int)
    ensures id in AvailableDrivers(h, cell, now, window)
            <==> exists k :: 0 <= k < |h| && Pings(h[k], cell, id) && h[k].state == DriverName(Available)
                             && now - h[k].at <= window && NoPingFrom(h, k + 1, cell, id)
  {
    if LastAvailable(h, cell, id).Some? {
      SeenIsAnId(h, cell, id);
      var k := AvailableWasPinged(h, cell, id);
    }
    if k :| 0 <= k < |h| && Pings(h[k], cell, id) && h[k].state == DriverName(Available)
            && now - h[k].at <= window && NoPingFrom(h, k + 1, cell, id)
    {
      LastPingDecides(h, cell, id, k);
    }
  }

  /** A finite ratio times the supply is the demand; the ratio is infinite when there is demand and no supply. */
  lemma RatioTimesSupplyIsDemand(h: seq<Event>, cell: Cell, now: Time, window: int)
    ensures var ratio := FullRatio(h, cell, now, window);
            var (open, available) := (|OpenTrips(h, cell, now, window)|, |AvailableDrivers(h, cell, now, window)|);
            && (ratio.Infinite? <==> open > 0 && available == 0)
            && (ratio.Finite? ==> ratio.value * available as real == open as real)
            && (open == 0 ==> ratio == Finite(0.0))
  {
  }

  // ---- what the maps hold --------------------------------------------------

  /** m holds last-seen times, and lacks one only if some prune found it outside the window. */
  ghost predicate Holds(m: map<string, Time>, last: string -> Option<Time>, h: seq<Event>, window: int) {
    && (forall id :: id in m ==> last(id) == Some(m[id]))
    && (forall id :: last(id).Some? && id !in m ==> Evicted(last(id).value, h, window))
  }

  ghost predicate Evicted(seen: Time, h: seq<Event>, window: int) {
    exists k :: 0 <= k < |h| && h[k].Pruned? && h[k].now - seen > window
  }

  function StateOf(cells: map<Cell, CellState>, cell: Cell): CellState {
    if cell in cells then cells[cell] else EMPTY
  }

  ghost predicate HoldsCell(s: CellState, h: seq<Event>, cell: Cell, window: int) {
    && Holds(s.openTrips, id => LastOpen(h, cell, id), h, window)
    && Holds(s.availableDrivers, id => LastAvailable(h, cell, id), h, window)
  }

  ghost predicate Represents(cells: map<Cell, CellState>, h: seq<Event>, window: int) {
    forall cell :: HoldsCell(StateOf(cells, cell), h, cell, window)
  }

  function Within(m: map<string, Time>, now: Time, window: int): set<string> {
    set id | id in m && now - m[id] <= window
  }

  /** Reading no earlier than the latest prune, eviction makes no difference. */
  lemma WindowIsComplete(s: CellState, h: seq<Event>, cell: Cell, now: Time, window: int)
    requires HoldsCell(s, h, cell, window) && PrunesBefore(h, now)
    ensures Within(s.openTrips, now, window) == OpenTrips(h, cell, now, window)
    ensures Within(s.availableDrivers, now, window) == AvailableDrivers(h, cell, now, window)
  {
    forall id
      ensures id in Within(s.openTrips, now, window) <==> id in OpenTrips(h, cell, now, window)
      ensures id in Within(s.availableDrivers, now, window) <==> id in AvailableDrivers(h, cell, now, window)
    {
      if LastOpen(h, cell, id).Some? || LastAvailable(h, cell, id).Some? {
        SeenIsAnId(h, cell, id);
      }
    }
  }

  lemma EvictedStays(seen: Time, h: seq<Event>, e: Event, window: int)
    requires Evicted(seen, h, window)
    ensures Evicted(seen, h + [e], window)
  {
    var k :| 0 <= k < |h| && h[k].Pruned? && h[k].now - seen > window;
    assert (h + [e])[k] == h[k];
  }

  lemma LastAppends(h: seq<Event>, e: Event, cell: Cell, id: string)
    ensures LastOpen(h + [e], cell, id)
            == if e.Trip? && e.cell == cell && e.id == id && Opens(e.state) then Some(e.at)
               else if e.Trip? && e.cell == cell && e.id == id && Closes(e.state) then None
               else LastOpen(h, cell, id)
    ensures LastAvailable(h + [e], cell, id)
            == if e.Driver? && e.cell == cell && e.id == id then (if e.state == "AVAILABLE" then Some(e.at) else None)
               else LastAvailable(h, cell, id)
  {
    assert (h + [e])[..|h + [e]| - 1] == h;
  }

  /** The state of a cell after one more record of it. */
  function Recorded(s: CellState, e: Event): CellState {
    match e
    case Trip(_, id, state, at) =>
      if Opens(state) then s.(openTrips := s.openTrips[id := at])
      else if Closes(state) then s.(openTrips := s.openTrips - {id})
      else s
    case Driver(_, id, state, at) =>
      if state == "AVAILABLE" then s.(availableDrivers := s.availableDrivers[id := at])
      else s.(availableDrivers := s.availableDrivers - {id})
    case Pruned(_) => s
  }

  lemma RecordHolds(s: CellState, h: seq<Event>, cell: Cell, window: int, e: Event)
    requires HoldsCell(s, h, cell, window) && !e.Pruned?
    ensures HoldsCell(if e.cell == cell then Recorded(s, e) else s, h + [e], cell, window)
  {
    var s' := if e.cell == cell then Recorded(s, e) else s;
    forall id
      ensures id in s'.openTrips ==> LastOpen(h + [e], cell, id) == Some(s'.openTrips[id])
      ensures LastOpen(h + [e], cell, id).Some? && id !in s'.openTrips ==>
                Evicted(LastOpen(h + [e], cell, id).value, h + [e], window)
      ensures id in s'.availableDrivers ==> LastAvailable(h + [e], cell, id) == Some(s'.availableDrivers[id])
      ensures LastAvailable(h + [e], cell, id).Some? && id !in s'.availableDrivers ==>
                Evicted(LastAvailable(h + [e], cell, id).value, h + [e], window)
    {
      LastAppends(h, e, cell, id);
      if LastOpen(h, cell, id).Some? && id !in s.openTrips {
        EvictedStays(LastOpen(h, cell, id).value, h, e, window);
      }
      if LastAvailable(h, cell, id).Some? && id !in s.availableDrivers {
        EvictedStays(LastAvailable(h, cell, id).value, h, e, window);
      }
    }
  }

  function Kept(m: map<string, Time>, now: Time, window: int): map<string, Time> {
    map id | id in m && now - m[id] <= window :: m[id]
  }

  function KeptCell(s: CellState, now: Time, window: int): CellState {
    CellState(Kept(s.openTrips, now, window), Kept(s.availableDrivers, now, window))
  }

  lemma PruneHolds(s: CellState, h: seq<Event>, cell: Cell, window: int, now: Time)
    requires HoldsCell(s, h, cell, window)
    ensures HoldsCell(KeptCell(s, now, window), h + [Pruned(now)], cell, window)
  {
    var e := Pruned(now);
    var s' := KeptCell(s, now, window);
    forall id
      ensures id in s'.openTrips ==> LastOpen(h + [e], cell, id) == Some(s'.openTrips[id])
      ensures LastOpen(h + [e], cell, id).Some? && id !in s'.openTrips ==>
                Evicted(LastOpen(h + [e], cell, id).value, h + [e], window)
      ensures id in s'.availableDrivers ==> LastAvailable(h + [e], cell, id) == Some(s'.availableDrivers[id])
      ensures LastAvailable(h + [e], cell, id).Some? && id !in s'.availableDrivers ==>
                Evicted(LastAvailable(h + [e], cell, id).value, h + [e], window)
    {
      LastAppends(h, e, cell, id);
      assert (h + [e])[|h|] == e;
      if LastOpen(h, cell, id).Some? && id !in s.openTrips {
        EvictedStays(LastOpen(h, cell, id).value, h, e, window);
      }
      if LastAvailable(h, cell, id).Some? && id !in s.availableDrivers {
        EvictedStays(LastAvailable(h, cell, id).value, h, e, window);
      }
    }
  }

  /** The cell has an open trip or an available driver in the window. */
  ghost predicate HasEntry(h: seq<Event>, cell: Cell, now: Time, window: int) {
    OpenTrips(h, cell, now, window) + AvailableDrivers(h, cell, now, window) != {}
  }

  lemma KeptIffEntry(s: CellState, h: seq<Event>, cell: Cell, now: Time, window: int)
    requires HoldsCell(s, h, cell, window) && PrunesBefore(h, now)
    ensures KeptCell(s, now, window) != EMPTY <==> HasEntry(h, cell, now, window)
  {
    WindowIsComplete(s, h, cell, now, window);
    var k := KeptCell(s, now, window);
    assert k.openTrips.Keys == OpenTrips(h, cell, now, window);
    assert k.availableDrivers.Keys == AvailableDrivers(h, cell, now, window);
    assert k.openTrips == map[] <==> k.openTrips.Keys == {};
    assert k.availableDrivers == map[] <==> k.availableDrivers.Keys == {};
  }

  method CountWithinWindow(m: map<string, Time>, now: Time, window: int) returns (n: nat)
    ensures n == |Within(m, now, window)|
  {
    n := 0;
    var left := m.Keys;
    ghost var counted: set<string> := {};
    while left != {}
      invariant left <= m.Keys
      invariant counted == set id | id in m && id !in left && now - m[id] <= window
      invariant n == |counted|
      decreases left
    {
      var id :| id in left;
      left := left - {id};
      if now - m[id] <= window {
        n := n + 1;
        counted := counted + {id};
      }
    }
    assert counted == Within(m, now, window);
  }

  method PruneMap(m: map<string, Time>, now: Time, window: int) returns (r: map<string, Time>)
    ensures r == Kept(m, now, window)
  {
    r := m;
    var left := m.Keys;
    while left != {}
      invariant left <= m.Keys
      invariant r == map id | id in m && (id in left || now - m[id] <= window) :: m[id]
      decreases left
    {
      var id :| id in left;
      left := left - {id};
      if now - m[id] > window {
        r := r - {id};
      }
    }
  }

  method PruneCell(s: CellState, now: Time, window: int) returns (kept: CellState)
    ensures kept == KeptCell(s, now, window)
    ensures |kept.openTrips| == 0 && |kept.availableDrivers| == 0 <==> kept == EMPTY
  {
    var open := PruneMap(s.openTrips, now, window);
    var available := PruneMap(s.availableDrivers, now, window);
    kept := CellState(open, available);
    assert |open| == 0 <==> open == map[];
    assert |available| == 0 <==> available == map[];
  }

  /** The cells during a prune: those in left still as before, the others pruned and dropped if empty. */
  function PartlyPruned(before: map<Cell, CellState>, left: set<Cell>, now: Time, window: int): map<Cell, CellState> {
    map c | c in before && (c in left || KeptCell(before[c], now, window) != EMPTY)
      :: if c in left then before[c] else KeptCell(before[c], now, window)
  }

  lemma PartlyPrunedSteps(before: map<Cell, CellState>, left: set<Cell>, now: Time, window: int, c: Cell)
    requires c in left && c in before
    ensures var partly := PartlyPruned(before, left, now, window);
            var kept := KeptCell(before[c], now, window);
            && c in partly && partly[c] == before[c]
            && PartlyPruned(before, left - {c}, now, window)
               == if kept == EMPTY then partly - {c} else partly[c := kept]
  {
  }

  /** Pruning every cell, and dropping those left empty. */
  lemma PruneRepresents(
    before: map<Cell, CellState>, cells: map<Cell, CellState>, h: seq<Event>, window: int, now: Time)
    requires Represents(before, h, window) && cells == PartlyPruned(before, {}, now, window)
    ensures Represents(cells, h + [Pruned(now)], window)
    ensures PrunesBefore(h, now) ==> forall c :: c in cells <==> HasEntry(h, c, now, window)
  {
    forall c
      ensures HoldsCell(StateOf(cells, c), h + [Pruned(now)], c, window)
      ensures PrunesBefore(h, now) ==> (c in cells <==> HasEntry(h, c, now, window))
    {
      assert KeptCell(EMPTY, now, window) == EMPTY;
      assert StateOf(cells, c) == KeptCell(StateOf(before, c), now, window);
      PruneHolds(StateOf(before, c), h, c, window, now);
      if PrunesBefore(h, now) {
        KeptIffEntry(StateOf(before, c), h, c, now, window);
      }
    }
  }

  class Aggregator {
    const window: int
    var cells: map<Cell, CellState>
    /** Every record and prune so far. */
    ghost var history: seq<Event>

    ghost predicate Valid()
      reads this
    {
      Represents(cells, history, window)
    }

    constructor (window: int)
      ensures Valid() && history == []
      ensures this.window == if window <= 0 then DEFAULT_WINDOW else window
    {
      this.window := if window <= 0 then DEFAULT_WINDOW else window;
      cells := map[];
      history := [];
    }

    method RecordTrip(cell: Cell, id: string, state: string, at: Time)
      requires Valid()
      modifies this
      ensures Valid() && history == old(history) + [Trip(cell, id, state, at)]
    {
      ghost var before := cells;
      CellFor(cell);
      if Opens(state) {
        cells := cells[cell := cells[cell].(openTrips := cells[cell].openTrips[id := at])];
      } else if Closes(state) {
        cells := cells[cell := cells[cell].(openTrips := cells[cell].openTrips - {id})];
      }
      history := history + [Trip(cell, id, state, at)];
      forall c
        ensures HoldsCell(StateOf(cells, c), history, c, window)
      {
        RecordHolds(StateOf(before, c), old(history), c, window, Trip(cell, id, state, at));
      }
    }

    method RecordDriver(cell: Cell, id: string, state: string, at: Time)
      requires Valid()
      modifies this
      ensures Valid() && history == old(history) + [Driver(cell, id, state, at)]
    {
      ghost var before := cells;
      CellFor(cell);
      if state == "AVAILABLE" {
        cells := cells[cell := cells[cell].(availableDrivers := cells[cell].availableDrivers[id := at])];
      } else {
        cells := cells[cell := cells[cell].(availableDrivers := cells[cell].availableDrivers - {id})];
      }
      history := history + [Driver(cell, id, state, at)];
      forall c
        ensures HoldsCell(StateOf(cells, c), history, c, window)
      {
        RecordHolds(StateOf(before, c), old(history), c, window, Driver(cell, id, state, at));
      }
    }

    /** cellFor: the cell exists afterwards, with nothing else changed. */
    method CellFor(cell: Cell)
      modifies this`cells
      ensures cell in cells && forall c :: StateOf(cells, c) == old(StateOf(cells, c))
    {
      if cell !in cells {
        cells := cells[cell := EMPTY];
      }
    }

    /** Ratio: at any time not before the latest prune, the answer of the full history. */
    method ReadRatio(cell: Cell, now: Time) returns (r: Ratio)
      requires Valid()
      ensures PrunesBefore(history, now) ==> r == FullRatio(history, cell, now, window)
    {
      if PrunesBefore(history, now) {
        WindowIsComplete(StateOf(cells, cell), history, cell, now, window);
      }
      if cell !in cells {
        assert Within(EMPTY.openTrips, now, window) == {};
        return Finite(0.0);
      }
      var open := CountWithinWindow(cells[cell].openTrips, now, window);
      var available := CountWithinWindow(cells[cell].availableDrivers, now, window);
      if open == 0 {
        return Finite(0.0);
      }
      if available == 0 {
        return Infinite;
      }
      r := Finite(open as real / available as real);
    }

    /** Prune: evicted entries change no later answer, and the cells kept are exactly those with an entry in the
        window. */
    method Prune(now: Time)
      requires Valid()
      modifies this
      ensures Valid() && history == old(history) + [Pruned(now)]
      ensures PrunesBefore(old(history), now) ==> forall c :: c in cells <==> HasEntry(old(history), c, now, window)
    {
      ghost var before := cells;
      var left := cells.Keys;
      while left != {}
        invariant left <= before.Keys && history == old(history)
        invariant cells == PartlyPruned(before, left, now, window)
        decreases left
      {
        var c :| c in left;
        PartlyPrunedSteps(before, left, now, window, c);
        var kept := PruneCell(cells[c], now, window);
        if |kept.openTrips| == 0 && |kept.availableDrivers| == 0 {
          cells := cells - {c};
        } else {
          cells := cells[c := kept];
        }
        left := left - {c};
      }
      history := history + [Pruned(now)];
      PruneRepresents(before, cells, old(history), window, now);
    }

    /** Cells lists each cell held once. */
    method Cells() returns (list: seq<Cell>)
      ensures forall c :: c in list <==> c in cells
      ensures forall i, j :: 0 <= i < j < |list| ==> list[i] != list[j]
    {
      list := [];
      var left := cells.Keys;
      while left != {}
        invariant left <= cells.Keys
        invariant forall c :: c in list <==> c in cells.Keys - left
        invariant forall i, j :: 0 <= i < j < |list| ==> list[i] != list[j]
        decreases left
      {
        var c :| c in left;
        assert c !in list;
        list := list + [c];
        left := left - {c};
      }
    }
  }
}
