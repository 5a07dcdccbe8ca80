/** The three lifecycles of internal/statemachine as transition relations. */
module StateMachine {

  datatype DriverState = Offline | Available | Offered | EnRoute | OnTrip

  datatype TripState = TripRequested | TripOffered | TripMatched | TripUnfulfilled

  datatype OfferState = OfferPending | OfferAccepted | OfferDeclined | OfferTimedOut

  predicate DriverMay(from: DriverState, to: DriverState) {
    match from
    case Offline => to == Available
    case Available => to == Offered || to == Offline
    case Offered => to == EnRoute || to == Available
    case EnRoute => to == OnTrip || to == Available
    case OnTrip => to == Available
  }

  predicate TripMay(from: TripState, to: TripState) {
    match from
    case TripRequested => to == TripOffered || to == TripUnfulfilled
    case TripOffered => to == TripMatched || to == TripUnfulfilled
    case TripMatched => false
    case TripUnfulfilled => false
  }

  /** The happy path of a shift, round and round. */
  function NextOnShift(s: DriverState): DriverState {
    match s
    case Offline => Available
    case Available => Offered
    case Offered => EnRoute
    case EnRoute => OnTrip
    case OnTrip => Available
  }

  /** A driver may only go one stage on, back to AVAILABLE from anywhere else, or off shift from AVAILABLE. */
  lemma DriverMayIff(from: DriverState, to: DriverState)
    ensures DriverMay(from, to)
            <==> || to == NextOnShift(from)
                 || (to == Available && from != Available)
                 || (from == Available && to == Offline)
  {
  }

  predicate TripPath(p: seq<TripState>) {
    forall i :: 0 < i < |p| ==> TripMay(p[i - 1], p[i])
  }

  /** All the lives a trip can have: offered at most once and resolved at most once, and matched only if offered. */
  lemma TripLives(p: seq<TripState>)
    requires p != [] && p[0] == TripRequested
    ensures TripPath(p)
            <==> || p == [TripRequested]
                 || p == [TripRequested, TripOffered]
                 || p == [TripRequested, TripUnfulfilled]
                 || p == [TripRequested, TripOffered, TripMatched]
                 || p == [TripRequested, TripOffered, TripUnfulfilled]
  {
    if TripPath(p) && |p| > 1 {
      assert TripMay(p[0], p[1]);
      assert |p| > 2 ==> TripMay(p[1], p[2]);
      assert |p| > 3 ==> TripMay(p[2], p[3]);
    }
  }

  predicate OfferMay(from: OfferState, to: OfferState) {
    from == OfferPending && to != OfferPending
  }

  /** MATCHED and UNFULFILLED: the outcomes a trip never leaves. */
  predicate Terminal(s: TripState) {
    s == TripMatched || s == TripUnfulfilled
  }
}
