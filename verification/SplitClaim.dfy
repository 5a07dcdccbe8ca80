/** DriverStore.SetState(driver, OFFERED) as the two commands it is, HGET and HSET, raced by any number of dispatchers
    for one AVAILABLE driver. This is what the atomic-step assumption of the other modules leaves out. */
module SplitClaim {
  import opened StateMachine

  datatype Command = Get(reader: nat) | Set(writer: nat)

  /** reading: those past a successful check, about to write. */
  datatype Race = Race(state: DriverState, reading: set<nat>, claimed: set<nat>, refused: set<nat>)

  const START := Race(Available, {}, {}, {})

  function Do(r: Race, c: Command): Race {
    match c
    case Get(d) =>
      if d in r.reading + r.claimed + r.refused then r
      else if DriverMay(r.state, Offered) then r.(reading := r.reading + {d})
      else r.(refused := r.refused + {d})
    case Set(d) =>
      if d in r.reading then Race(Offered, r.reading - {d}, r.claimed + {d}, r.refused) else r
  }

  function Play(s: seq<Command>): Race {
    if s == [] then START else Do(Play(s[..|s| - 1]), s[|s| - 1])
  }

  /** The number of commands before the first write that takes effect. */
  function BeforeWrite(s: seq<Command>): (n: nat)
    ensures n <= |s|
    ensures n < |s| <==> Play(s).claimed != {}
  {
    if s == [] then 0
    else
      var n := BeforeWrite(s[..|s| - 1]);
      if n < |s| - 1 || Play(s).claimed != {} then n else |s|
  }

  /** c's check came before any write. */
  ghost predicate ReadInTime(s: seq<Command>, c: nat) {
    exists k :: 0 <= k < BeforeWrite(s) && s[k] == Get(c)
  }

  lemma {:induction false} StateTellsClaimed(s: seq<Command>)
    ensures Play(s).state == if Play(s).claimed == {} then Available else Offered
    ensures Play(s).claimed == {} ==> Play(s).refused == {}
  {
    if s != [] {
      StateTellsClaimed(s[..|s| - 1]);
    }
  }

  /** In every schedule the driver is, or is about to be, claimed by exactly those who checked before the first
      write. */
  lemma {:induction false} WinnersReadInTime(s: seq<Command>, c: nat)
    ensures c in Play(s).reading + Play(s).claimed <==> ReadInTime(s, c)
    ensures c in Play(s).refused ==> !ReadInTime(s, c)
  {
    if s != [] {
      var t := s[..|s| - 1];
      WinnersReadInTime(t, c);
      StateTellsClaimed(t);
      forall k | 0 <= k < BeforeWrite(t) && t[k] == Get(c)
        ensures s[k] == Get(c) && k < BeforeWrite(s)
      {
      }
      forall k | 0 <= k < BeforeWrite(s) && k < |t| && s[k] == Get(c)
        ensures k < BeforeWrite(t) && t[k] == Get(c)
      {
      }
      if s[|s| - 1] == Get(c) && BeforeWrite(t) == |t| {
        assert ReadInTime(s, c) by {
          assert s[|t|] == Get(c) && |t| < BeforeWrite(s);
        }
      }
    }
  }

  /** The m-th command is a write by a dispatcher that has checked. */
  ghost predicate WritesAfterCheck(s: seq<Command>, m: nat) {
    m < |s| && s[m].Set? && exists k :: 0 <= k < m && s[k] == Get(s[m].writer)
  }

  /** "The first write" in plain words: the first by a dispatcher whose own check came before it. */
  lemma {:induction false} BeforeWriteIsFirst(s: seq<Command>)
    ensures BeforeWrite(s) < |s| ==> WritesAfterCheck(s, BeforeWrite(s))
    ensures forall m: nat :: m < BeforeWrite(s) ==> !WritesAfterCheck(s, m)
  {
    if s != [] {
      var t, c := s[..|s| - 1], s[|s| - 1];
      BeforeWriteIsFirst(t);
      forall m: nat | m < |t|
        ensures WritesAfterCheck(s, m) <==> WritesAfterCheck(t, m)
      {
        assert t[m] == s[m] && forall k :: 0 <= k < m ==> t[k] == s[k];
      }
      if c.Set? && BeforeWrite(t) == |t| {
        WinnersReadInTime(t, c.writer);
        assert ReadInTime(t, c.writer) <==> WritesAfterCheck(s, |t|) by {
          assert forall k :: 0 <= k < |t| ==> t[k] == s[k];
        }
      }
    }
  }

  /** Two dispatchers both get the driver exactly when both checks come before the first write. */
  lemma DoubleClaimIff(s: seq<Command>, a: nat, b: nat)
    requires Play(s).reading == {} && a != b
    ensures {a, b} <= Play(s).claimed <==> ReadInTime(s, a) && ReadInTime(s, b)
  {
    WinnersReadInTime(s, a);
    WinnersReadInTime(s, b);
  }

  /** And such a schedule exists: check, check, write, write. */
  lemma DoubleClaimIsReachable(a: nat, b: nat)
    requires a != b
    ensures Play([Get(a), Get(b), Set(a), Set(b)]).claimed == {a, b}
  {
    PlayAppends([], Get(a));
    PlayAppends([Get(a)], Get(b));
    PlayAppends([Get(a), Get(b)], Set(a));
    PlayAppends([Get(a), Get(b), Set(a)], Set(b));
    assert [] + [Get(a)] == [Get(a)] && [Get(a)] + [Get(b)] == [Get(a), Get(b)];
    assert [Get(a), Get(b)] + [Set(a)] == [Get(a), Get(b), Set(a)];
    assert [Get(a), Get(b), Set(a)] + [Set(b)] == [Get(a), Get(b), Set(a), Set(b)];
  }

  lemma PlayAppends(s: seq<Command>, c: Command)
    ensures Play(s + [c]) == Do(Play(s), c)
  {
    assert (s + [c])[..|s + [c]| - 1] == s;
  }

  /** Each check directly followed by its own write: the atomic SetState of the other modules. */
  function Atomically(order: seq<nat>): seq<Command> {
    if order == [] then [] else Atomically(order[..|order| - 1]) + [Get(order[|order| - 1])] + [Set(order[|order| - 1])]
  }

  /** Then the driver goes to the first dispatcher alone, whatever the order. */
  lemma {:induction false} AtomicClaimsAreExclusive(order: seq<nat>)
    ensures Play(Atomically(order)).reading == {}
    ensures Play(Atomically(order)).claimed == if order == [] then {} else {order[0]}
  {
    if order != [] {
      var rest := order[..|order| - 1];
      var last := order[|order| - 1];
      AtomicClaimsAreExclusive(rest);
      StateTellsClaimed(Atomically(rest));
      PlayAppends(Atomically(rest), Get(last));
      PlayAppends(Atomically(rest) + [Get(last)], Set(last));
      if rest == [] {
        assert Atomically(rest) == [] && Play([]) == START;
      }
    }
  }
}
