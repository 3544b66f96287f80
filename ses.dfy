// The stochastic extremum-seeking prototype loop: each iteration perturbs the
// index of the current electrode pair, measures the new pair, switches pairs
// after ten consecutive improvements and raises the stimulation current while
// the response stays weak.
//
// The random draws of an iteration (the perturbation `eta` and the two noisy
// muscle responses) are inputs, bundled in a `Draw`. `LoopState` and
// `Transition` give the meaning of one iteration; the class `Optimizer` runs
// the loop in place and is proved to follow them.

module Ses {
  import opened Electrodes

  // ---------------------------------------------------------------------
  // Parameters

  const NumIterations: nat := 80

  /** `I_min`, `I_max`, `increment_I`, in whole milliamperes. */
  const IMin: int := 1
  const IMax: int := 15
  const IncrementI: int := 1

  /** Consecutive improvements needed before the current pair is replaced. */
  const SwitchAfter: int := 10

  /** Below this activation the current is raised. */
  const LowActivation: real := 0.2
  /** From this activation on the current is considered stable. */
  const HighActivation: real := 0.4

  /** The random values one iteration consumes. */
  datatype Draw = Draw(
    eta: real,              // the perturbation after its update
    newResponse: real,      // response of the perturbed pair, before clamping
    currentResponse: real)  // re-measured response of the current pair, before clamping

  function Min(a: int, b: int): int { if a <= b then a else b }
  function Max(a: int, b: int): int { if a <= b then b else a }

  // ---------------------------------------------------------------------
  // Index perturbation

  /** Python's `int(x)` on a float: truncation toward zero. */
  function Trunc(x: real): (r: int)
    ensures 0.0 <= x ==> 0 <= r && r as real <= x < r as real + 1.0
    ensures x < 0.0 ==> r <= 0 && r as real - 1.0 < x <= r as real
  {
    if x >= 0.0 then x.Floor else -((-x).Floor)
  }

  /** `max(0, min(num_pairs - 1, v))`. */
  function ClampIndex(v: int): (r: int)
    ensures 0 <= r < NumPairs()
    ensures 0 <= v < NumPairs() ==> r == v
    ensures v < 0 ==> r == 0
    ensures NumPairs() <= v ==> r == NumPairs() - 1
  {
    PairsShape();
    Max(0, Min(NumPairs() - 1, v))
  }

  /** After clamping, truncating toward zero and flooring pick the same index. */
  lemma TruncClampIsFloorClamp(x: real)
    ensures ClampIndex(Trunc(x)) == ClampIndex(x.Floor)
  {
    if x < 0.0 {
      assert x.Floor < 0;
    }
  }

  /** `perturbed_index` computed from `current_pair_index` and `eta`. */
  function PerturbedIndex(index: int, eta: real): (r: int)
    ensures 0 <= r < NumPairs()
  {
    ClampIndex(Trunc(index as real + eta))
  }

  /**
   * Whatever `eta` is, the perturbed index is the floor of `index + eta`
   * clamped into the list; inside the list it is that floor itself.
   */
  lemma PerturbedIndexIsFloor(index: int, eta: real)
    ensures PerturbedIndex(index, eta) == ClampIndex((index as real + eta).Floor)
    ensures 0.0 <= index as real + eta < NumPairs() as real ==>
      PerturbedIndex(index, eta) == (index as real + eta).Floor
  {
    TruncClampIsFloorClamp(index as real + eta);
  }

  // ---------------------------------------------------------------------
  // Muscle activation

  /** `max(activation + noise, 0)`: the smallest non-negative value not below the raw response. */
  function MuscleActivation(response: real): (r: real)
    ensures 0.0 <= r && response <= r
    ensures r == response || r == 0.0
  {
    if response < 0.0 then 0.0 else response
  }

  // ---------------------------------------------------------------------
  // The loop state and one iteration

  /** The variables the loop updates, with the three history lists. */
  datatype LoopState = LoopState(
    pairIndex: int,          // current_pair_index
    counter: int,            // stability_counter
    current: int,            // I_k
    stable: bool,            // current_stable
    history: seq<Pair>,
    activations: seq<real>,
    currents: seq<int>)

  /** The state before the first iteration, from the initially drawn pair index. */
  function Init(startIndex: int): LoopState
  {
    LoopState(startIndex, 0, IMin, false, [], [], [])
  }

  /** What the loop keeps true between iterations. */
  ghost predicate Inv(s: LoopState)
  {
    0 <= s.pairIndex < NumPairs() &&
    0 <= s.counter < SwitchAfter &&
    IMin <= s.current <= IMax &&
    Traces(s.history, s.activations, s.currents, s.current)
  }

  /**
   * The three histories: one entry per iteration each, listed pairs,
   * non-negative activations, and a current trace that never falls and
   * ends at the current level.
   */
  ghost predicate Traces(history: seq<Pair>, activations: seq<real>, currents: seq<int>, current: int)
  {
    |activations| == |history| &&
    |currents| == |history| &&
    (forall t :: 0 <= t < |history| ==> WellFormed(history[t])) &&
    (forall t :: 0 <= t < |activations| ==> 0.0 <= activations[t]) &&
    (forall t :: 0 <= t < |currents| ==> IMin <= currents[t] <= current) &&
    (forall t, u :: 0 <= t < u < |currents| ==> currents[t] <= currents[u]) &&
    (currents != [] ==> currents[|currents| - 1] == current)
  }

  /** Appending one iteration's entries keeps the histories consistent. */
  lemma TracesAppend(history: seq<Pair>, activations: seq<real>, currents: seq<int>, current: int,
                     p: Pair, a: real, next: int)
    requires Traces(history, activations, currents, current)
    requires WellFormed(p) && 0.0 <= a && IMin <= current <= next
    ensures Traces(history + [p], activations + [a], currents + [next], next)
  {
  }

  /** Whether the perturbed pair answered more strongly than the current one. */
  function Improved(d: Draw): bool
  {
    MuscleActivation(d.newResponse) > MuscleActivation(d.currentResponse)
  }

  /** Whether this iteration raises the current. */
  function Raises(s: LoopState, d: Draw): bool
  {
    MuscleActivation(d.newResponse) < LowActivation && !s.stable
  }

  /** One pass of the loop body. */
  function Transition(s: LoopState, d: Draw): LoopState
  {
    var perturbed := PerturbedIndex(s.pairIndex, d.eta);
    var newPair := ElectrodePairs()[perturbed];
    var activation := MuscleActivation(d.newResponse);
    var counter := if Improved(d) then s.counter + 1 else 0;
    var switched := counter >= SwitchAfter;
    var current := if Raises(s, d) then Min(s.current + IncrementI, IMax) else s.current;
    var stable := if Raises(s, d) then s.stable else s.stable || activation >= HighActivation;
    LoopState(
      if switched then perturbed else s.pairIndex,
      if switched then 0 else counter,
      current,
      stable,
      s.history + [newPair],
      s.activations + [activation],
      s.currents + [current])
  }

  /** The loop run over `draws`, one iteration per draw. */
  function Iterate(s: LoopState, draws: seq<Draw>): LoopState
  {
    if draws == [] then s
    else Transition(Iterate(s, draws[..|draws| - 1]), draws[|draws| - 1])
  }

  /** The `perturbed_index` chosen by each iteration of `Iterate(s, draws)`. */
  function PerturbedTrace(s: LoopState, draws: seq<Draw>): seq<int>
  {
    if draws == [] then []
    else
      var before := Iterate(s, draws[..|draws| - 1]);
      PerturbedTrace(s, draws[..|draws| - 1]) + [PerturbedIndex(before.pairIndex, draws[|draws| - 1].eta)]
  }

  // ---------------------------------------------------------------------
  // One iteration

  lemma InitInv(startIndex: int)
    requires 0 <= startIndex < NumPairs()
    ensures Inv(Init(startIndex))
  {
  }

  /** Every iteration keeps the invariant. */
  lemma TransitionInv(s: LoopState, d: Draw)
    requires Inv(s)
    ensures Inv(Transition(s, d))
  {
    var perturbed := PerturbedIndex(s.pairIndex, d.eta);
    TransitionHistories(s, d);
    CurrentRule(s, d);
    PairsShape();
    TracesAppend(s.history, s.activations, s.currents, s.current,
                 ElectrodePairs()[perturbed], MuscleActivation(d.newResponse), Transition(s, d).current);
  }

  /**
   * The stability counter counts consecutive improvements: it is reset by
   * any iteration that brings none and by a switch, and otherwise grows by one.
   */
  lemma CounterRule(s: LoopState, d: Draw)
    requires Inv(s)
    ensures !Improved(d) ==> Transition(s, d).counter == 0
    ensures Improved(d) && s.counter + 1 < SwitchAfter ==> Transition(s, d).counter == s.counter + 1
    ensures Improved(d) && s.counter + 1 == SwitchAfter ==> Transition(s, d).counter == 0
  {
  }

  /**
   * The pair changes only on the iteration that completes ten consecutive
   * improvements, and then it becomes that iteration's perturbed index.
   */
  lemma SwitchRule(s: LoopState, d: Draw)
    requires Inv(s)
    ensures var t := Transition(s, d);
      0 <= t.pairIndex < NumPairs() &&
      (Improved(d) && s.counter == SwitchAfter - 1 ==> t.pairIndex == PerturbedIndex(s.pairIndex, d.eta)) &&
      (!(Improved(d) && s.counter == SwitchAfter - 1) ==> t.pairIndex == s.pairIndex)
  {
  }

  /**
   * The current never falls, rises by at most one step, stays in
   * [IMin, IMax], and rises only on a weak response while not yet stable.
   */
  lemma CurrentRule(s: LoopState, d: Draw)
    requires Inv(s)
    ensures var t := Transition(s, d);
      s.current <= t.current <= s.current + IncrementI &&
      IMin <= t.current <= IMax &&
      (t.current > s.current ==> MuscleActivation(d.newResponse) < LowActivation && !s.stable) &&
      (MuscleActivation(d.newResponse) < LowActivation && !s.stable && s.current < IMax ==> t.current == s.current + IncrementI)
  {
  }

  /**
   * The stable latch is set only by an activation of at least 0.4, is never
   * cleared, and once set freezes the current.
   */
  lemma StableLatch(s: LoopState, d: Draw)
    ensures var t := Transition(s, d);
      (s.stable ==> t.stable && t.current == s.current) &&
      (t.stable && !s.stable ==> MuscleActivation(d.newResponse) >= HighActivation) &&
      (MuscleActivation(d.newResponse) >= HighActivation ==> t.stable)
  {
  }

  /** Each iteration appends exactly one entry to every history. */
  lemma TransitionHistories(s: LoopState, d: Draw)
    ensures var t := Transition(s, d);
      t.history == s.history + [ElectrodePairs()[PerturbedIndex(s.pairIndex, d.eta)]] &&
      t.activations == s.activations + [MuscleActivation(d.newResponse)] &&
      t.currents == s.currents + [t.current]
  {
  }

  // ---------------------------------------------------------------------
  // Whole runs

  lemma {:induction false} IterateInv(s: LoopState, draws: seq<Draw>)
    requires Inv(s)
    ensures Inv(Iterate(s, draws))
    ensures |Iterate(s, draws).history| == |s.history| + |draws|
  {
    if draws != [] {
      IterateInv(s, draws[..|draws| - 1]);
      TransitionInv(Iterate(s, draws[..|draws| - 1]), draws[|draws| - 1]);
    }
  }

  /** Over a run the current never decreases and rises by at most one step per iteration. */
  lemma {:induction false} IterateCurrent(s: LoopState, draws: seq<Draw>)
    requires Inv(s)
    ensures s.current <= Iterate(s, draws).current <= s.current + |draws| * IncrementI
  {
    if draws != [] {
      var init := draws[..|draws| - 1];
      IterateCurrent(s, init);
      IterateInv(s, init);
      CurrentRule(Iterate(s, init), draws[|draws| - 1]);
    }
  }

  /** Once the latch is set, it stays set and the current never changes again. */
  lemma {:induction false} IterateStable(s: LoopState, draws: seq<Draw>)
    requires s.stable
    ensures Iterate(s, draws).stable
    ensures Iterate(s, draws).current == s.current
  {
    if draws != [] {
      IterateStable(s, draws[..|draws| - 1]);
    }
  }

  /**
   * The counter grows by at most one per iteration, so a pair cannot be
   * replaced before enough improvements have been seen.
   */
  lemma {:induction false} IterateNoEarlySwitch(s: LoopState, draws: seq<Draw>)
    requires Inv(s)
    requires s.counter + |draws| < SwitchAfter
    ensures Iterate(s, draws).pairIndex == s.pairIndex
    ensures Iterate(s, draws).counter <= s.counter + |draws|
  {
    if draws != [] {
      IterateNoEarlySwitch(s, draws[..|draws| - 1]);
    }
  }

  /**
   * Started from a zero counter, the stability counter never exceeds the
   * number of iterations run, and the last `counter` iterations all brought
   * an improvement: it counts consecutive improvements.
   */
  lemma {:induction false} CounterCountsImprovements(s: LoopState, draws: seq<Draw>)
    requires Inv(s) && s.counter == 0
    ensures var c := Iterate(s, draws).counter;
      c <= |draws| && forall t :: |draws| - c <= t < |draws| ==> Improved(draws[t])
  {
    if draws != [] {
      var n := |draws|;
      var init, last := draws[..n - 1], draws[n - 1];
      var before := Iterate(s, init);
      CounterCountsImprovements(s, init);
      IterateInv(s, init);
      assert Iterate(s, draws) == Transition(before, last);
      CounterRule(before, last);
      var c := Transition(before, last).counter;
      if c != 0 {
        assert Improved(last) && c == before.counter + 1;
        forall t | n - c <= t < n
          ensures Improved(draws[t])
        {
          if t < n - 1 {
            assert draws[t] == init[t];
          }
        }
      }
    }
  }

  /**
   * Started from a zero counter, an iteration that moves the current pair
   * is the tenth of ten consecutive improving iterations, and moves it to
   * that iteration's perturbed index.
   */
  lemma SwitchNeedsTenImprovements(s: LoopState, draws: seq<Draw>)
    requires Inv(s) && s.counter == 0 && draws != []
    ensures var before := Iterate(s, draws[..|draws| - 1]);
      var after := Iterate(s, draws);
      after.pairIndex != before.pairIndex ==>
        SwitchAfter <= |draws| &&
        (forall t :: |draws| - SwitchAfter <= t < |draws| ==> Improved(draws[t])) &&
        after.pairIndex == PerturbedIndex(before.pairIndex, draws[|draws| - 1].eta)
  {
    var n := |draws|;
    var init, last := draws[..n - 1], draws[n - 1];
    var before := Iterate(s, init);
    CounterCountsImprovements(s, init);
    IterateInv(s, init);
    assert Iterate(s, draws) == Transition(before, last);
    SwitchRule(before, last);
    if Transition(before, last).pairIndex != before.pairIndex {
      assert Improved(last) && before.counter == SwitchAfter - 1;
      forall t | n - SwitchAfter <= t < n
        ensures Improved(draws[t])
      {
        if t < n - 1 {
          assert draws[t] == init[t];
        }
      }
    }
  }

  /** A run keeps the earlier history and appends, per iteration, the pair at its perturbed index. */
  lemma {:induction false} IterateHistory(s: LoopState, draws: seq<Draw>)
    ensures var h := Iterate(s, draws).history;
      var trace := PerturbedTrace(s, draws);
      |trace| == |draws| && |h| == |s.history| + |draws| && h[..|s.history|] == s.history &&
      forall t :: 0 <= t < |draws| ==> 0 <= trace[t] < NumPairs() && h[|s.history| + t] == ElectrodePairs()[trace[t]]
  {
    if draws != [] {
      var init := draws[..|draws| - 1];
      IterateHistory(s, init);
      TransitionHistories(Iterate(s, init), draws[|draws| - 1]);
    }
  }

  /**
   * Rebuilding indices from the pair history (`electrode_pairs.index(pair)`
   * for every recorded pair) gives back exactly the perturbed indices the
   * iterations chose.
   */
  lemma HistoryIndicesMatchTrace(startIndex: int, draws: seq<Draw>)
    ensures HistoryIndices(ElectrodePairs(), Iterate(Init(startIndex), draws).history)
            == Some(PerturbedTrace(Init(startIndex), draws))
  {
    var h := Iterate(Init(startIndex), draws).history;
    var trace := PerturbedTrace(Init(startIndex), draws);
    assert |h| == |trace| && forall t :: 0 <= t < |trace| ==> 0 <= trace[t] < NumPairs() && h[t] == ElectrodePairs()[trace[t]] by {
      IterateHistory(Init(startIndex), draws);
    }
    HistoryIndicesOfPositions(h, trace);
  }

  // ---------------------------------------------------------------------
  // The loop, run in place

  class Optimizer {
    var currentPairIndex: int
    var stabilityCounter: int
    var current: int
    var currentStable: bool
    var history: seq<Pair>
    var activationHistory: seq<real>
    var currentHistory: seq<int>

    ghost function State(): LoopState
      reads this
    {
      LoopState(currentPairIndex, stabilityCounter, current, currentStable,
                history, activationHistory, currentHistory)
    }

    ghost predicate Valid()
      reads this
    {
      Inv(State())
    }

    /** The initialisation before the loop, given the initially drawn index. */
    constructor (startIndex: int)
      requires 0 <= startIndex < NumPairs()
      ensures Valid()
      ensures State() == Init(startIndex)
    {
      currentPairIndex := startIndex;
      stabilityCounter := 0;
      current := IMin;
      currentStable := false;
      history := [];
      activationHistory := [];
      currentHistory := [];
    }

    /** One iteration of the loop body. */
    method Step(d: Draw)
      modifies this
      ensures State() == Transition(old(State()), d)
      ensures old(Valid()) ==> Valid()
    {
      ghost var next := Transition(State(), d);
      if Valid() {
        TransitionInv(State(), d);
      }
      var perturbed := Trunc(currentPairIndex as real + d.eta);
      perturbed := ClampIndex(perturbed);
      assert perturbed == PerturbedIndex(currentPairIndex, d.eta);
      var newPair := ElectrodePairs()[perturbed];
      var newActivation := MuscleActivation(d.newResponse);

      if newActivation > MuscleActivation(d.currentResponse) {
        stabilityCounter := stabilityCounter + 1;
        if stabilityCounter >= SwitchAfter {
          currentPairIndex := perturbed;
          stabilityCounter := 0;
        }
      } else {
        stabilityCounter := 0;
      }
      assert currentPairIndex == next.pairIndex && stabilityCounter == next.counter;

      if newActivation < LowActivation && !currentStable {
        current := Min(current + IncrementI, IMax);
      } else if newActivation >= HighActivation {
        currentStable := true;
      }
      assert current == next.current && currentStable == next.stable;

      history := history + [newPair];
      activationHistory := activationHistory + [newActivation];
      currentHistory := currentHistory + [current];
    }

    /** The loop: one iteration per draw. */
    method Run(draws: seq<Draw>)
      requires Valid()
      modifies this
      ensures Valid()
      ensures State() == Iterate(old(State()), draws)
    {
      ghost var start := State();
      for i := 0 to |draws|
        invariant State() == Iterate(start, draws[..i])
      {
        assert draws[..i + 1][..i] == draws[..i];
        Step(draws[i]);
      }
      assert draws[..|draws|] == draws;
      IterateInv(start, draws);
    }

    /** `best_pair = electrode_pairs[current_pair_index]`. */
    method BestPair() returns (p: Pair)
      requires Valid()
      ensures p == ElectrodePairs()[currentPairIndex]
      ensures WellFormed(p)
    {
      PairsShape();
      p := ElectrodePairs()[currentPairIndex];
    }
  }

  /**
   * The whole script: start from the drawn index, run the loop for
   * `num_iterations` iterations, rebuild `history_indices` and read off the
   * best pair and the final current.
   */
  method Optimise(startIndex: int, draws: seq<Draw>)
    returns (best: Pair, finalCurrent: int, historyIndices: seq<int>)
    requires 0 <= startIndex < NumPairs()
    requires |draws| == NumIterations
    ensures var final := Iterate(Init(startIndex), draws);
      0 <= final.pairIndex < NumPairs() &&
      best == ElectrodePairs()[final.pairIndex] &&
      finalCurrent == final.current &&
      |final.history| == |final.activations| == |final.currents| == NumIterations
    ensures WellFormed(best)
    ensures IMin <= finalCurrent <= IMax
    ensures historyIndices == PerturbedTrace(Init(startIndex), draws)
    ensures |historyIndices| == NumIterations
    ensures forall t :: 0 <= t < |historyIndices| ==> 0 <= historyIndices[t] < NumPairs()
  {
    var o := new Optimizer(startIndex);
    o.Run(draws);
    IterateInv(Init(startIndex), draws);
    HistoryIndicesMatchTrace(startIndex, draws);
    var indices := HistoryIndices(ElectrodePairs(), o.history);
    historyIndices := indices.value;
    best := o.BestPair();
    finalCurrent := o.current;
  }
}
