/** The nonce counters (NextRedeployNonce in internal/flink/nonce.go, and nextNonce in
    internal/secretsync/syncer.go, which is the same loop): a global int64 that any number of
    callers advance by compare-and-swap. */
module Nonce {
  import opened Wrappers
  import opened Coord

  /** The value a caller tries to install over `prev` when its clock shows `now`. */
  function Candidate(prev: int, now: int): int {
    if now <= prev then WrapInt64(prev + 1) else now
  }

  /** What some clock reading can make of `prev`: anything larger, and the smallest int64 when
      there is nothing larger. */
  predicate Follows(prev: int, next: int) {
    if prev < INT64_MAX then prev < next <= INT64_MAX else next == INT64_MIN
  }

  /** The candidate keeps up with the clock: it is the reading, or one more than the counter if the
      counter has reached the reading. */
  predicate KeepsUp(prev: int, now: int, next: int) {
    next >= now && next >= prev + 1 && (next == now || next == prev + 1)
  }

  lemma CandidateKeepsUp(prev: int, now: int)
    requires IsInt64(prev) && IsInt64(now) && prev < INT64_MAX
    ensures KeepsUp(prev, now, Candidate(prev, now))
  {
  }

  lemma CandidateFollows(prev: int, now: int)
    requires IsInt64(prev) && IsInt64(now)
    ensures Follows(prev, Candidate(prev, now))
  {
  }

  // ---------- one caller ----------

  /** The number of tries that lose against other callers: those before the first undisturbed one. */
  function LostTries(rivals: seq<Option<int>>): (k: nat)
    ensures k <= |rivals|
    ensures forall i | 0 <= i < k :: rivals[i].Some?
    ensures k < |rivals| ==> rivals[k].None?
  {
    if rivals == [] || rivals[0].None? then 0 else 1 + LostTries(rivals[1..])
  }

  /** The value the counter holds when the i-th try begins. */
  function Before(rivals: seq<Option<int>>, start: int, i: nat): int
    requires i <= |rivals|
  {
    if i == 0 || rivals[i - 1].None? then start else rivals[i - 1].value
  }

  /** A rival really changes the counter. */
  predicate Disturbing(rivals: seq<Option<int>>, start: int) {
    forall i | 0 <= i < |rivals| && rivals[i].Some? ::
      IsInt64(rivals[i].value) && rivals[i].value != Before(rivals, start, i)
  }

  class Counter {
    var value: int

    constructor (seed: int)
      ensures value == seed
    {
      value := seed;
    }

    method CompareAndSwap(prev: int, next: int) returns (swapped: bool)
      modifies this
      ensures swapped <==> old(value) == prev
      ensures value == if swapped then next else old(value)
    {
      swapped := value == prev;
      if swapped {
        value := next;
      }
    }

    /** The retry loop. In the i-th try the clock shows `clock(i)`, and `rivals[i]` is the value
        that other callers leave in the counter between the load and the compare-and-swap. */
    method Next(clock: nat -> int, rivals: seq<Option<int>>) returns (nonce: int)
      requires IsInt64(value) && (forall i :: IsInt64(clock(i)))
      requires Disturbing(rivals, value)
      modifies this
      ensures value == nonce
      ensures var k := LostTries(rivals);
              var current := Before(rivals, old(value), k);
              && nonce == Candidate(current, clock(k)) && Follows(current, nonce)
              && (current < INT64_MAX ==> KeepsUp(current, clock(k), nonce))
    {
      ghost var lost := LostTries(rivals);
      var i := 0;
      while true
        invariant 0 <= i <= lost
        invariant value == Before(rivals, old(value), i)
        decreases |rivals| - i
      {
        var prev := value;
        var next := clock(i);
        if next <= prev {
          next := WrapInt64(prev + 1);
        }
        if i < |rivals| && rivals[i].Some? {
          value := rivals[i].value;
        }
        CandidateFollows(prev, clock(i));
        if prev < INT64_MAX {
          CandidateKeepsUp(prev, clock(i));
        }
        var swapped := CompareAndSwap(prev, next);
        if swapped {
          return next;
        }
        i := i + 1;
      }
    }
  }

  // ---------- any number of callers ----------

  /** Where a caller stands: `since` is how many nonces had been returned when it loaded `prev`. */
  datatype Caller = Idle | Loaded(prev: int, since: nat) | Ready(prev: int, next: int, since: nat)

  /** `returned` lists the nonces in the order in which the compare-and-swaps succeeded. */
  datatype System = System(counter: int, callers: seq<Caller>, returned: seq<int>)

  /** The next step of one caller; `now` is its clock, should it read it. */
  datatype Action = Action(caller: nat, now: int)

  predicate Enabled(s: System, a: Action) {
    a.caller < |s.callers| && IsInt64(a.now)
  }

  function Step(s: System, a: Action): System
    requires Enabled(s, a)
  {
    match s.callers[a.caller]
    case Idle => s.(callers := s.callers[a.caller := Loaded(s.counter, |s.returned|)])
    case Loaded(prev, since) => s.(callers := s.callers[a.caller := Ready(prev, Candidate(prev, a.now), since)])
    case Ready(prev, next, since) =>
      var idle := s.callers[a.caller := Idle];
      if s.counter == prev then System(next, idle, s.returned + [next]) else s.(callers := idle)
  }

  predicate IsRun(states: seq<System>, actions: seq<Action>) {
    && |states| == |actions| + 1
    && forall i | 0 <= i < |actions| :: Enabled(states[i], actions[i]) && states[i + 1] == Step(states[i], actions[i])
  }

  predicate Initial(s: System) {
    IsInt64(s.counter) && s.returned == [] && forall i | 0 <= i < |s.callers| :: s.callers[i].Idle?
  }

  /** The values of the counter: the seed, then the returned nonces. */
  function Values(seed: int, s: System): seq<int> {
    [seed] + s.returned
  }

  predicate ChainedFrom(values: seq<int>) {
    && (forall i | 0 <= i < |values| :: IsInt64(values[i]))
    && forall i | 0 < i < |values| :: Follows(values[i - 1], values[i])
  }

  predicate CallerKeeps(values: seq<int>, c: Caller) {
    && (!c.Idle? ==> c.since < |values| && c.prev == values[c.since])
    && (c.Ready? ==> IsInt64(c.next) && Follows(c.prev, c.next))
  }

  predicate Inv(seed: int, s: System) {
    var values := Values(seed, s);
    && ChainedFrom(values)
    && s.counter == values[|values| - 1]
    && forall i | 0 <= i < |s.callers| :: CallerKeeps(values, s.callers[i])
  }

  lemma StepKeepsInv(seed: int, s: System, a: Action)
    requires Inv(seed, s) && Enabled(s, a)
    ensures Inv(seed, Step(s, a))
  {
    var values, t := Values(seed, s), Step(s, a);
    var c := s.callers[a.caller];
    assert CallerKeeps(values, c);
    match c
    case Idle =>
    case Loaded(prev, _) => CandidateFollows(prev, a.now);
    case Ready(prev, next, _) =>
      if s.counter == prev {
        assert Values(seed, t) == values + [next];
        forall i | 0 <= i < |t.callers|
          ensures CallerKeeps(Values(seed, t), t.callers[i])
        {
          assert t.callers[i] == Idle || t.callers[i] == s.callers[i];
          assert CallerKeeps(values, s.callers[i]);
        }
      }
  }

  lemma {:induction false} RunKeepsInv(states: seq<System>, actions: seq<Action>)
    requires IsRun(states, actions) && Initial(states[0])
    ensures forall i | 0 <= i < |states| :: Inv(states[0].counter, states[i])
  {
    var seed := states[0].counter;
    for n := 0 to |actions|
      invariant forall i | 0 <= i <= n :: Inv(seed, states[i])
    {
      StepKeepsInv(seed, states[n], actions[n]);
    }
  }

  predicate Increasing(values: seq<int>) {
    forall i, j | 0 <= i < j < |values| :: values[i] < values[j]
  }

  lemma {:induction false} ChainIncreases(values: seq<int>)
    requires ChainedFrom(values) && (forall i | 0 <= i < |values| - 1 :: values[i] < INT64_MAX)
    ensures Increasing(values)
  {
    if |values| > 1 {
      var n := |values| - 1;
      var before := values[..n];
      assert forall i | 0 <= i < n :: before[i] == values[i];
      ChainIncreases(before);
      assert Follows(values[n - 1], values[n]);
      assert forall i | 0 <= i < n - 1 :: before[i] < before[n - 1];
    }
  }

  /** In every interleaving and for all clock readings, the nonces increase in the order in which
      they are won, so no two are equal, exactly as long as the counter is advanced only from below
      the largest int64. */
  lemma NoncesIncreaseExactly(states: seq<System>, actions: seq<Action>)
    requires IsRun(states, actions) && Initial(states[0])
    ensures var values := Values(states[0].counter, states[|actions|]);
            Increasing(values) <==> forall i | 0 <= i < |values| - 1 :: values[i] < INT64_MAX
  {
    RunKeepsInv(states, actions);
    var values := Values(states[0].counter, states[|actions|]);
    assert Inv(states[0].counter, states[|actions|]);
    if forall i | 0 <= i < |values| - 1 :: values[i] < INT64_MAX {
      ChainIncreases(values);
    } else {
      var i :| 0 <= i < |values| - 1 && values[i] >= INT64_MAX;
      assert Follows(values[i], values[i + 1]);
      assert values[i + 1] == INT64_MIN;
    }
  }

  /** A caller that has to retry was overtaken: another call has returned since its load. */
  lemma RetryMeansProgress(states: seq<System>, actions: seq<Action>, n: nat)
    requires IsRun(states, actions) && Initial(states[0]) && n < |actions|
    requires var c := states[n].callers[actions[n].caller]; c.Ready? && states[n].counter != c.prev
    ensures |states[n].returned| > states[n].callers[actions[n].caller].since
  {
    RunKeepsInv(states, actions);
    assert Inv(states[0].counter, states[n]);
    assert CallerKeeps(Values(states[0].counter, states[n]), states[n].callers[actions[n].caller]);
  }

  // ---------- across process restarts ----------

  /** The run of a process whose counter was seeded with `seed`, and whose nonces increase. */
  ghost predicate IsProcess(states: seq<System>, actions: seq<Action>, seed: int) {
    && IsRun(states, actions) && Initial(states[0]) && states[0].counter == seed
    && Increasing(Values(seed, states[|actions|]))
  }

  predicate AllAbove(nonces: seq<int>, last: int) {
    forall i | 0 <= i < |nonces| :: nonces[i] > last
  }

  /** Whatever a process with this seed does, its nonces are larger than `last`. */
  ghost predicate StaysAbove(seed: int, last: int) {
    forall states: seq<System>, actions: seq<Action> ::
      IsProcess(states, actions, seed) ==> AllAbove(states[|actions|].returned, last)
  }

  /** One caller draws one nonce while its clock shows `now`. */
  function OneCall(seed: int, now: int): seq<System> {
    [System(seed, [Idle], []), System(seed, [Loaded(seed, 0)], []),
     System(seed, [Ready(seed, Candidate(seed, now), 0)], []),
     System(Candidate(seed, now), [Idle], [Candidate(seed, now)])]
  }

  lemma OneCallIsProcess(seed: int, now: int)
    requires IsInt64(seed) && IsInt64(now) && seed < INT64_MAX
    ensures IsProcess(OneCall(seed, now), [Action(0, now), Action(0, now), Action(0, now)], seed)
  {
    CandidateFollows(seed, now);
    var states, a := OneCall(seed, now), Action(0, now);
    assert states[1] == Step(states[0], a) && states[2] == Step(states[1], a) && states[3] == Step(states[2], a);
  }

  /** Seeding the counter from the clock keeps the nonces increasing across a restart of the process
      exactly if the clock has reached the last nonce by then; else there is a run that does not
      get past it, namely one whose clock still shows the seed. */
  lemma RestartIncreasesExactly(seed: int, last: int)
    requires IsInt64(seed) && IsInt64(last)
    ensures StaysAbove(seed, last) <==> last <= seed
  {
    if seed < last {
      OneCallIsProcess(seed, seed);
      var states := OneCall(seed, seed);
      assert states[3].returned[0] == seed + 1;
      assert IsProcess(states, [Action(0, seed), Action(0, seed), Action(0, seed)], seed);
    } else {
      forall states: seq<System>, actions: seq<Action> | IsProcess(states, actions, seed)
        ensures AllAbove(states[|actions|].returned, last)
      {
        var values := Values(seed, states[|actions|]);
        assert forall i | 0 < i < |values| :: values[0] < values[i];
        assert forall i | 0 <= i < |states[|actions|].returned| :: states[|actions|].returned[i] == values[i + 1];
      }
    }
  }

  /** Then the nonces of both processes together increase. */
  lemma NoncesIncreaseAcrossRestart(states: seq<System>, actions: seq<Action>, seed: int, states': seq<System>,
                                    actions': seq<Action>, seed': int)
    requires IsProcess(states, actions, seed) && IsProcess(states', actions', seed')
    requires states[|actions|].counter <= seed'
    ensures Increasing(states[|actions|].returned + states'[|actions'|].returned)
  {
    RunKeepsInv(states, actions);
    assert Inv(seed, states[|actions|]);
    var before, after := Values(seed, states[|actions|]), Values(seed', states'[|actions'|]);
    assert forall i | 0 <= i < |before| :: before[i] <= before[|before| - 1];
    assert forall i | 0 < i < |after| :: after[0] < after[i];
    var all := states[|actions|].returned + states'[|actions'|].returned;
    var n := |before| - 1;
    assert forall i | 0 <= i < |all| :: all[i] == if i < n then before[i + 1] else after[i - n + 1];
  }

  /** A counter of seconds can be ahead of its clock: a process that draws a nonce in the second of
      its start and is restarted within that second may draw the same nonce again. */
  lemma RestartRepeats(seed: int)
    requires IsInt64(seed) && seed < INT64_MAX
    ensures var a := Action(0, seed);
            IsProcess(OneCall(seed, seed), [a, a, a], seed) && OneCall(seed, seed)[3].returned == [seed + 1]
    ensures !StaysAbove(seed, seed + 1)
  {
    OneCallIsProcess(seed, seed);
    RestartIncreasesExactly(seed, seed + 1);
  }
}
