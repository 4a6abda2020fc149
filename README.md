# Bogosort simulation: a Dafny model

`bogosort.py` animates bogosort on a bar chart. A `SimulationCanvas` holds
four pieces of state:

- the bar heights `numbers`;
- a parallel list of display colours `colours`;
- the longest ascending run seen so far, `streak`;
- a shuffle counter, `iterations`.

The bars are drawn and sorted by repeated random swaps until a left-to-right
scan finds them strictly ascending. Then the problem grows by one bar. A
runtime readout formats elapsed seconds as `HHHH:MM:SS`.

The model has three modules:

- `Bars` (`bars.dfy`) is the value view of the bars. It defines:
  - the sortedness test (`Ascending`, built from the per-position test `RisesAt`);
  - the swap a shuffle step performs (`Swap`), and a series of swaps (`Replay`);
  - the length of the ascending prefix the scan walks (`AscentRun`);
  - the streak update (`NextStreak`) and its fold over several scans (`StreakAfter`);
  - the "permutation of 1..N" invariant (`OneToN`).
- `Simulation` (`simulation.dfy`) is the class `SimulationCanvas`. Its fields
  are the four pieces of state above, as `seq` and `nat` fields, and its
  methods update them in place: `Shuffle`, `FullShuffle`, `IsSorted`,
  `Bogosort` and `IncreaseProblemSize`. Each method's `ensures` ties the new
  state to the functions of `Bars`.
- `TimeFormat` (`time_format.dfy`) covers `convert_to_preferred_format`:
  - the two `divmod` steps (`Split`);
  - zero-padded decimal rendering (`Decimal`, `ZeroPad`, `Format`);
  - a reader (`ParseClock`) against which the rendering is proved to round-trip.

The random choices are parameters:

- `Shuffle(i, j)` takes the two positions that `random.randrange` would pick.
- `FullShuffle(perm)` takes the permutation that `random.shuffle` would produce.
- `Bogosort(draws)` takes the sequence of position pairs its shuffles consume.

The model follows the code as written:

- A fresh canvas holds one bar `[1]` with one white colour (`bogosort.py:63-64`).
- `iterations` starts at 1 (`bogosort.py:72`) and is reset to 0 when a sort completes (`bogosort.py:140`).
- `streak` is reset by `bogosort` itself (`bogosort.py:139`); the growth step leaves it alone.
- The scan's counter starts at 1 and is compared with `streak` only after an
  ascent. A scan that fails at the second bar therefore records nothing;
  `NextStreak` records a run only once it has reached 2.

## Model

| member | source | states |
|---|---|---|
| Bars.Swap | bogosort.py:89-91 | the exchange keeps the length and the multiset of the bars |
| Bars.SwapExchanges | bogosort.py:83-91 | the two chosen positions trade values and every other position keeps its value; choosing the same position twice changes nothing |
| Bars.Replay | bogosort.py:122-128 | any number of successive shuffle swaps keeps the length and the multiset of the bars |
| Bars.AscentRun | bogosort.py:94-114 | the run is at most the number of bars and at least 1 when there is a bar; the prefix of that length is strictly ascending; the bar right after it is not taller than its predecessor |
| Bars.AscentRunAtLeast | bogosort.py:95-102 | an ascending prefix of length f means the run is at least f |
| Bars.AscentRunAtMost | bogosort.py:107-114 | a bar at position f that is not taller than the one before it means the run is at most f |
| Bars.AscentRunUnique | bogosort.py:94-114 | the position where the scan stops (the first non-ascent, or the end) is the run length |
| Bars.AscendingIffFullRun | bogosort.py:95-118 | the bars are strictly ascending exactly when the ascending run covers all of them, in both directions |
| Bars.NextStreak | bogosort.py:94-104 | the stored streak never decreases; it becomes either its old value or the run; it is at least the run once the run reaches 2; it is unchanged by a run below 2 |
| Bars.StreakIsRunningMaximum | bogosort.py:94-104 | over any series of scans the streak stays at least its start value, covers every run of length 2 or more, and is either the start value or one of those runs |
| Bars.AscendingGap | bogosort.py:100-101 | in strictly ascending integer bars, positions j - i apart differ by at least j - i |
| Bars.OneToNBounds | bogosort.py:63-64 | every bar of a permutation of 1..N lies between 1 and N |
| Bars.SortedOneToN | bogosort.py:125 | the only strictly ascending permutation of 1..N is 1, 2, ..., N |
| Bars.ReplaySortedIsIota | bogosort.py:120-128 | if a run of shuffles leaves a permutation of 1..N ascending, it leaves exactly 1, 2, ..., N |
| Bars.GrowOneToN | bogosort.py:143 | appending N + 1 to a permutation of 1..N gives a permutation of 1..N+1 |
| Simulation.SimulationCanvas.constructor | bogosort.py:60-72 | the canvas starts with the single bar 1 in white, streak 0 and the counter at 1, and the bars are a permutation of 1..1 |
| Simulation.SimulationCanvas.FullShuffle | bogosort.py:78-79 | the bars become the chosen permutation; colours and counters are unchanged; a permutation of 1..N stays one |
| Simulation.SimulationCanvas.Shuffle | bogosort.py:81-91 | the bars become the swap of the two positions; exactly those two colours become red; streak and iterations are unchanged |
| Simulation.SimulationCanvas.IsSorted | bogosort.py:93-118 | the bars and the counter are unchanged; the answer is true exactly when the bars are strictly ascending; the streak becomes NextStreak of the old streak and the ascending run; on success every colour is green; on failure every colour ends white, and the frame drawn at the failure has the prefix green, the failing bar red and the rest as before |
| Simulation.SimulationCanvas.ShuffleAndScan | bogosort.py:125-128 | one loop round: the bars are swapped by the draw, the counter is unchanged, the answer is whether the result is ascending, all colours are green or all white accordingly, and the streak is updated by the new run |
| Simulation.SimulationCanvas.ReplayRound | bogosort.py:125-128 | one round of an attempt keeps the attempt's record: the bars are the draws replayed one further, the new scan's run is appended to the recorded runs, and the streak is their running maximum; the counter is unchanged and the colours are all green or all white as the scan answers |
| Simulation.SimulationCanvas.Bogosort | bogosort.py:120-140 | the bars are the result of the consumed draws applied in order, and no scan before the last found them ascending (the loop exits at the first ascending scan); `runs` holds the ascending run each scan found; on success the bars are ascending, all colours are green, and streak and iterations are 0; if the draws run out first, the bars are not ascending, all colours are white, the counter has grown by the number of extra shuffles, and the streak is the running maximum `StreakAfter` of the old streak over those runs |
| Simulation.SimulationCanvas.IncreaseProblemSize | bogosort.py:142-145 | N + 1 is appended to the bars and white to the colours, earlier entries and the counters are unchanged, and a permutation of 1..N becomes one of 1..N+1 |
| TimeFormat.Split | bogosort.py:181-183 | minutes and seconds are below 60, and hours * 3600 + minutes * 60 + seconds is the input |
| TimeFormat.SplitUnique | bogosort.py:181-183 | no other hours/minutes/seconds triple with minutes and seconds below 60 adds up to the same number of seconds |
| TimeFormat.Decimal | bogosort.py:184 | the decimal notation is non-empty and made of digits only |
| TimeFormat.ZeroPad | bogosort.py:184 | the padded field is as long as the wider of the width and the notation, and holds digits only |
| TimeFormat.DecimalRoundTrip | bogosort.py:184 | reading the decimal notation back gives the number |
| TimeFormat.LeadingZeros | bogosort.py:184 | leading zeros do not change the value read |
| TimeFormat.ZeroPadRoundTrip | bogosort.py:184 | reading a zero-padded field back gives the number |
| TimeFormat.DecimalWidth | bogosort.py:184 | a number below 10^k has at most k digits, so minutes and seconds fit their two-digit fields |
| TimeFormat.FormatRoundTrip | bogosort.py:181-184 | about `Format`, the readout: it has digit fields separated by colons at the last two field boundaries; it is exactly ten characters while the hours fit in four digits; the hours, minutes and seconds fields each read back as the corresponding field of `Split`; the whole reads back as the seconds it was made from |

## Left out

- Drawing is not modelled. This covers the Tk canvas, `drawRectangles`, `addNewRectangle`, `update`, the rectangle list, the labels and the canvas geometry constants. It is display plumbing over the modelled state.
- Audio is not modelled: `get_sound`, `play`, `play_multi`, `success_chime`, and the tone cue inside `isSorted` with its floating-point threshold. It is floating-point signal synthesis and a foreign sound library, and it does not affect the state.
- Clocks and sleeps are not modelled: `time.time`, `time.sleep`, and the `start_time` and `absolute_start_time` arithmetic. They are wall-clock and floating-point. The readout is modelled on its input, a duration in whole non-negative seconds.
- TimeFormat.Split: models whole non-negative seconds only. The source receives a float difference of clock readings; flooring a non-negative float yields the same fields, and fractional or negative inputs are not modelled.
- The `random` module is not modelled. Its choices are parameters of `Shuffle`, `FullShuffle` and `Bogosort`, so the model says nothing about their distribution.
- Bogosort: it runs over a finite, non-empty sequence of draws and stops unsorted when they run out, whereas the source loops until the bars happen to be ascending.
- Bogosort: the statement that a sorted permutation of 1..N ends as 1, 2, ..., N is the separate lemma `ReplaySortedIsIota` about the replayed bars, not an `ensures` of the method.
- The event loop is not modelled: `task`, `main`, `window.after` and `mainloop`. It schedules full shuffle, sort and growth in that order, which the model offers as separate methods.
