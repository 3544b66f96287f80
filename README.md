# Stochastic extremum-seeking prototype, modelled in Dafny

This project models the prototype search loop of a wearable neuromuscular
stimulator (`backend/ses_module.py`). The loop looks for the electrode pair,
out of the pairs of nine skin electrodes, and the stimulation current that
give the strongest muscle response.

- **Electrode pairs** (`electrodes.dfy`, module `Electrodes`). The ids are
  1..9. `ElectrodePairs` is the list comprehension that builds every pair
  `(i, j)` with `i < j`. It is proved to hold exactly 36 pairs, each well
  formed, in strictly increasing lexicographic order, and with every pair
  present. Python's `list.index` is `Index`, and the post-run
  `history_indices` comprehension is `HistoryIndices`. Looking up the k-th
  pair gives back k. The integer distance from a pair to the simulated
  optimum `(3, 5)` is `Distance`.
- **The loop** (`ses.dfy`, module `Ses`). One iteration is specified by the
  pure function `Transition` on a `LoopState`. The state holds
  `current_pair_index`, `stability_counter`, `I_k`, `current_stable` and
  the three history lists. `Iterate` runs the iterations. The class
  `Optimizer` holds the same variables as fields: `Step` runs one iteration
  in place and `Run` runs the `for` loop. Both are proved to follow
  `Transition`/`Iterate`. `Optimise` is the whole script: initialise, run
  80 iterations, rebuild `history_indices`, read off the best pair and the
  final current.

The random inputs of an iteration form a `Draw`: the perturbation `eta`,
the noisy response of the perturbed pair, and the fresh re-measurement of
the current pair. Both responses are taken before the `max(..., 0)`
clamp. The initial pair index, drawn by `np.random.randint`, is a parameter.
Activations are `real` and are compared with the exact thresholds 0.2 and
0.4. Currents are `int`: `I_min = 1`, `increment_I = 1` and `I_max = 15`
only ever produce whole numbers.

The script itself fixes three choices the model follows:
- It perturbs the index by `int(current_pair_index + eta)`, then clamps it.
- It raises the current by one fixed step while the activation is below 0.2.
- It has no usage statistics, no usage gate and no score-gap stop.

## Model

| member | source | states |
|---|---|---|
| `Electrodes.Range` | backend/ses_module.py:5 | `range(lo, hi)` as a list: length `hi - lo` (0 if empty), k-th entry `lo + k` |
| `Electrodes.Ids` | backend/ses_module.py:5 | `electrodes`; characterised by `IdsAreRange` |
| `Electrodes.IdsAreRange` | backend/ses_module.py:5 | the electrode list is `list(range(1, 10))` |
| `Electrodes.PairsWith` | backend/ses_module.py:6 | the inner loop of the comprehension; characterised by `PairsWithMembers`, `PairsWithSorted` and `PairsWithCount` |
| `Electrodes.PairsOf` | backend/ses_module.py:6 | the whole comprehension; characterised by `PairsOfMembers`, `PairsOfSorted` and `PairsOfCount` |
| `Electrodes.ElectrodePairs` | backend/ses_module.py:6 | `electrode_pairs`; characterised by `PairsShape`, `ListedWellFormed`, `PairsComplete` and `PairsSorted` |
| `Electrodes.NumPairs` | backend/ses_module.py:7 | `num_pairs`; shown to be 36 by `PairsShape` |
| `Electrodes.PairsWithMembers` | backend/ses_module.py:6 | the inner comprehension over `j` yields `(i, j)` exactly when `j` is listed and `i < j` |
| `Electrodes.PairsOfMembers` | backend/ses_module.py:6 | the full comprehension yields `(i, j)` exactly when both ids are listed and `i < j` |
| `Electrodes.PairsOfSorted` | backend/ses_module.py:6 | over increasing id lists, the comprehension is strictly lexicographically increasing |
| `Electrodes.PairsOfCount` | backend/ses_module.py:6-7 | rows `a..hi-1` over ids `lo..hi-1` give m(m-1)/2 pairs, m = hi - a |
| `Electrodes.PairsShape` | backend/ses_module.py:4-7 | `num_pairs` is 36 and every pair has 1 <= i < j <= 9 |
| `Electrodes.ListedWellFormed` | backend/ses_module.py:6 | every listed pair has two distinct ids in 1..9, smaller first |
| `Electrodes.PairsComplete` | backend/ses_module.py:4-6 | every (i, j) with 1 <= i < j <= 9 is listed |
| `Electrodes.PairsSorted` | backend/ses_module.py:6 | the pair list is strictly lexicographically ordered, so it has no repeated pair |
| `Electrodes.Index` | backend/ses_module.py:83 | `list.index`: the first position holding the value; `None` (the ValueError) exactly when it is absent |
| `Electrodes.IndexOfSorted` | backend/ses_module.py:83 | in a strictly sorted list, looking up the k-th element gives back k |
| `Electrodes.IndexRoundTrip` | backend/ses_module.py:6-7 | `electrode_pairs.index(electrode_pairs[k]) == k` for every valid k |
| `Electrodes.HistoryIndices` | backend/ses_module.py:83 | defined exactly when every history entry is listed; then one index per entry, each the first position holding that entry |
| `Electrodes.HistoryIndicesOfPositions` | backend/ses_module.py:83 | a history built from listed positions converts back to exactly those positions |
| `Electrodes.Distance` | backend/ses_module.py:12-13 | the distance is 0 exactly for the optimal pair (3, 5) |
| `Electrodes.DistanceBound` | backend/ses_module.py:12-13 | over the listed pairs the distance is at most 9, and only (8, 9) reaches 9 |
| `Ses.Trunc` | backend/ses_module.py:51 | `int()` truncates toward zero: the result lies within 1 of its argument, on the zero side |
| `Ses.ClampIndex` | backend/ses_module.py:52 | the result is a valid index; an index already in range is kept; below range gives 0, above gives `num_pairs - 1` |
| `Ses.TruncClampIsFloorClamp` | backend/ses_module.py:51-52 | after the clamp, truncation and floor select the same index |
| `Ses.PerturbedIndex` | backend/ses_module.py:51-55 | for any `eta`, the perturbed index is a valid index into the pair list |
| `Ses.PerturbedIndexIsFloor` | backend/ses_module.py:51-52 | the perturbed index is the clamped floor of `index + eta`, and is that floor whenever it is in range |
| `Ses.MuscleActivation` | backend/ses_module.py:18 | `max(response, 0)`: non-negative, at least the response, and equal to it or to 0 |
| `Ses.Init` | backend/ses_module.py:33-43 | the state before the loop; characterised by `InitInv` |
| `Ses.Improved` | backend/ses_module.py:61 | the comparison of the two clamped responses; characterised by `CounterRule` and `SwitchRule` |
| `Ses.Raises` | backend/ses_module.py:71 | the condition for raising the current; characterised by `CurrentRule` and `StableLatch` |
| `Ses.Transition` | backend/ses_module.py:47-80 | one iteration; characterised by `TransitionInv`, `CounterRule`, `SwitchRule`, `CurrentRule`, `StableLatch` and `TransitionHistories` |
| `Ses.Iterate` | backend/ses_module.py:46-80 | the loop; characterised by `IterateInv`, `IterateCurrent`, `IterateStable`, `IterateNoEarlySwitch`, `CounterCountsImprovements`, `SwitchNeedsTenImprovements` and `IterateHistory` |
| `Ses.PerturbedTrace` | backend/ses_module.py:51-55 | the `perturbed_index` of each iteration; characterised by `IterateHistory` and `HistoryIndicesMatchTrace` |
| `Ses.InitInv` | backend/ses_module.py:33-43 | the initial state satisfies the loop invariant |
| `Ses.TracesAppend` | backend/ses_module.py:78-80 | appending one iteration's pair, activation and current keeps the histories consistent |
| `Ses.TransitionInv` | backend/ses_module.py:46-80 | one iteration keeps the index valid, the counter in [0, 9], the current in [1, 15] and the histories consistent |
| `Ses.CounterRule` | backend/ses_module.py:61-67 | the counter resets on a non-improving iteration and on a switch, and otherwise grows by one |
| `Ses.SwitchRule` | backend/ses_module.py:61-65 | the pair index moves only on the tenth consecutive improvement, and then to the perturbed index |
| `Ses.CurrentRule` | backend/ses_module.py:71-72 | the current never falls, rises by at most one step, stays in [1, 15], rises only on activation < 0.2 while not stable, and then does rise unless at 15 |
| `Ses.StableLatch` | backend/ses_module.py:71-75 | the latch is set only by activation >= 0.4, always by it, is never cleared, and freezes the current once set |
| `Ses.TransitionHistories` | backend/ses_module.py:78-80 | each iteration appends the perturbed pair, the clamped activation and the new current |
| `Ses.IterateInv` | backend/ses_module.py:46-80 | a run of any length keeps the invariant and adds one history entry per iteration |
| `Ses.IterateCurrent` | backend/ses_module.py:71-72 | over a run the current never decreases and rises by at most one step per iteration |
| `Ses.IterateStable` | backend/ses_module.py:74-75 | once the latch is set it stays set and the current never changes again |
| `Ses.IterateNoEarlySwitch` | backend/ses_module.py:61-65 | while fewer than ten improvements can have accumulated, the pair index does not move |
| `Ses.CounterCountsImprovements` | backend/ses_module.py:61-67 | from a zero counter, the counter never exceeds the iterations run, and the last `counter` iterations all improved |
| `Ses.SwitchNeedsTenImprovements` | backend/ses_module.py:61-65 | from a zero counter, a move of the pair index ends ten consecutive improving iterations and goes to that iteration's perturbed index |
| `Ses.IterateHistory` | backend/ses_module.py:55-78 | a run keeps earlier history and records, per iteration, the pair at that iteration's perturbed index |
| `Ses.HistoryIndicesMatchTrace` | backend/ses_module.py:83 | rebuilding `history_indices` from the pair history gives exactly the perturbed indices of the run |
| `Ses.Optimizer.constructor` | backend/ses_module.py:33-43 | the state before the loop: drawn index, counter 0, current `I_min`, latch off, empty histories |
| `Ses.Optimizer.Step` | backend/ses_module.py:47-80 | the in-place iteration produces exactly `Transition` of the old state and keeps the invariant |
| `Ses.Optimizer.Run` | backend/ses_module.py:46-80 | the in-place loop produces exactly `Iterate` of the old state over the draws and keeps the invariant |
| `Ses.Optimizer.BestPair` | backend/ses_module.py:104 | the best pair is the listed pair at the current index and is well formed |
| `Ses.Optimise` | backend/ses_module.py:26-104 | after 80 iterations: well-formed best pair, final current in [1, 15], 80 entries in each history, and `history_indices` equal to the perturbed indices, all valid |

## Left out

- Random draws (`np.random.normal`, `np.random.randint`): the noise, the perturbation and the initial index are inputs.
- The Ornstein–Uhlenbeck update of `eta` (`backend/ses_module.py:48`) is not modelled. It is floating point with `np.sqrt`, and any value of `eta` can follow it, so `eta` is taken as an input.
- The simulated response `exp(-0.5 d) * (1 - exp(-0.3 I)) + noise` is floating point. Responses are inputs, so the model does not tie them to the pair's distance or to the current. Only the `max(..., 0)` clamp and the integer distance are modelled.
- Floating-point effects are not modelled: rounding, NaN or infinite `eta` (where `int()` raises), and `I_k` turning into a float after its first increase.
- Plotting and printing (`backend/ses_module.py:2`, 73, 85-101, 105): these only produce output.
- backend/flask_api.py is not part of this model. Its HTTP routes, its background thread that updates shared state without locking, and its process killing are I/O and concurrency. Its one update rule repeats the clamp pattern modelled here.
- backend/test_wavelet.py is not part of this model: JSON file I/O, a Haar decomposition through a foreign library in floating point, and plotting.
- `backend/ses_module.py` has no grid coordinates, per-electrode usage statistics, usage gate, score-gap stop or two-phase controller, so none is modelled.
