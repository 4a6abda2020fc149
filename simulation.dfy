/**
 * The bar-chart state machine of the bogosort demonstration: the bar
 * values, their display colours, the longest streak seen and the iteration
 * counter, with the shuffle, sortedness scan, bogosort loop and growth step
 * that update them in place. Drawing, sound and clocks are not modelled; the
 * random choices are parameters.
 */
module Simulation {
  import opened Bars

  class SimulationCanvas {
    /** Bar heights, left to right. */
    var numbers: seq<int>
    /** Display colour of each bar, parallel to `numbers`. */
    var colours: seq<Colour>
    /** Longest ascending prefix recorded for the current problem size. */
    var streak: nat
    /** Shuffle counter of the current attempt. */
    var iterations: nat

    /** Every bar has a colour. */
    ghost predicate Valid()
      reads this
    {
      |colours| == |numbers|
    }

    /** One white bar of height 1, no streak, and the counter at 1. */
    constructor ()
      ensures Valid()
      ensures numbers == [1] && colours == [White]
      ensures streak == 0 && iterations == 1
      ensures OneToN(numbers)
    {
      numbers := [1];
      colours := [White];
      streak := 0;
      iterations := 1;
      assert Iota(1) == [1];
    }

    /** Replaces the bars by `perm`, the permutation the random shuffle chose. */
    method FullShuffle(perm: seq<int>)
      requires Valid()
      requires multiset(perm) == multiset(numbers)
      modifies this
      ensures Valid()
      ensures numbers == perm
      ensures colours == old(colours) && streak == old(streak) && iterations == old(iterations)
      ensures OneToN(old(numbers)) ==> OneToN(numbers)
    {
      assert |perm| == |multiset(perm)| == |multiset(numbers)| == |numbers|;
      numbers := perm;
    }

    /** Paints positions `i` and `j` red and exchanges their bars. */
    method Shuffle(i: nat, j: nat)
      requires Valid()
      requires i < |numbers| && j < |numbers|
      modifies this
      ensures Valid()
      ensures numbers == Swap(old(numbers), i, j)
      ensures colours == old(colours)[i := Red][j := Red]
      ensures streak == old(streak) && iterations == old(iterations)
    {
      colours := colours[i := Red];
      colours := colours[j := Red];
      var temp := numbers[j];
      numbers := numbers[j := numbers[i]];
      numbers := numbers[i := temp];
    }

    /**
     * Scans the bars left to right, painting each ascending position green
     * and recording the ascending run in `streak`. At the first bar not
     * taller than its predecessor it paints that bar red (the frame `flash`
     * is what is drawn then), resets every colour to white and answers false.
     */
    method IsSorted() returns (sorted: bool, ghost flash: seq<Colour>)
      requires Valid()
      modifies this
      ensures Valid()
      ensures numbers == old(numbers) && iterations == old(iterations)
      ensures sorted == Ascending(numbers)
      ensures streak == NextStreak(old(streak), AscentRun(numbers))
      ensures sorted ==> AllOf(colours, Green)
      ensures !sorted ==> AllOf(colours, White)
      ensures !sorted ==>
                var f := AscentRun(numbers);
                |flash| == |numbers| && f < |flash| && flash[f] == Red
                && (forall k :: 0 <= k < f ==> flash[k] == Green)
                && (forall k :: f < k < |flash| ==> flash[k] == old(colours)[k])
    {
      flash := colours;
      var current: nat := 1;
      var i := 0;
      while i < |numbers|
        invariant 0 <= i <= |numbers|
        invariant numbers == old(numbers) && iterations == old(iterations)
        invariant |colours| == |numbers|
        invariant Ascending(numbers[..i])
        invariant forall k :: 0 <= k < i ==> colours[k] == Green
        invariant forall k :: i <= k < |colours| ==> colours[k] == old(colours)[k]
        invariant current == if i == 0 then 1 else i
        invariant streak == NextStreak(old(streak), i)
      {
        if i == 0 {
          colours := colours[i := Green];
        } else if numbers[i] > numbers[i - 1] {
          colours := colours[i := Green];
          current := current + 1;
          if current > streak {
            streak := current;
          }
        } else {
          colours := colours[i := Red];
          flash := colours;
          AscentRunUnique(numbers, i);
          assert !RisesAt(numbers, i);
          var k := 0;
          while k < |numbers|
            invariant 0 <= k <= |numbers|
            invariant numbers == old(numbers) && iterations == old(iterations)
            invariant streak == NextStreak(old(streak), i)
            invariant |colours| == |numbers|
            invariant forall m :: 0 <= m < k ==> colours[m] == White
          {
            colours := colours[k := White];
            k := k + 1;
          }
          return false, flash;
        }
        AscendingSnoc(numbers[..i], numbers[i]);
        assert numbers[..i + 1] == numbers[..i] + [numbers[i]];
        i := i + 1;
      }
      assert numbers[..i] == numbers;
      AscentRunUnique(numbers, i);
      sorted := true;
    }

    /** One round of the bogosort loop: a shuffle with draw `d`, then a scan. */
    method ShuffleAndScan(d: Draw) returns (sorted: bool)
      requires Valid()
      requires d.first < |numbers| && d.second < |numbers|
      modifies this
      ensures Valid()
      ensures numbers == Swap(old(numbers), d.first, d.second)
      ensures iterations == old(iterations)
      ensures sorted == Ascending(numbers)
      ensures AllOf(colours, if sorted then Green else White)
      ensures streak == NextStreak(old(streak), AscentRun(numbers))
    {
      Shuffle(d.first, d.second);
      ghost var flash;
      sorted, flash := IsSorted();
    }

    /**
     * The state after the first `used` rounds of an attempt that started from
     * the bars `start` with the stored streak `streak0`: the bars are those
     * draws replayed, `runs` holds each round's ascending run, and the streak
     * is their running maximum.
     */
    ghost predicate Replayed(start: seq<int>, draws: seq<Draw>, used: nat, runs: seq<nat>, streak0: nat)
      reads this
    {
      Valid() && |numbers| == |start| && used <= |draws| && DrawsFit(draws, |start|)
      && numbers == Replay(start, draws, used)
      && |runs| == used && RunsRecorded(start, draws, runs)
      && streak == StreakAfter(streak0, runs)
    }

    /** Round `used + 1` of an attempt: `ShuffleAndScan` with the next draw, recording its run. */
    method ReplayRound(ghost start: seq<int>, draws: seq<Draw>, used: nat, ghost runs: seq<nat>, ghost streak0: nat)
      returns (sorted: bool, ghost runs': seq<nat>)
      requires Replayed(start, draws, used, runs, streak0) && used < |draws|
      modifies this
      ensures Replayed(start, draws, used + 1, runs', streak0)
      ensures iterations == old(iterations) && streak >= old(streak)
      ensures sorted == Ascending(numbers)
      ensures AllOf(colours, if sorted then Green else White)
    {
      assert Replay(start, draws, used + 1)
          == Swap(Replay(start, draws, used), draws[used].first, draws[used].second);
      sorted := ShuffleAndScan(draws[used]);
      RunsRecordedExtend(start, draws, runs);
      StreakAfterSnoc(streak0, runs, ScanRun(start, draws, used + 1));
      runs' := runs + [ScanRun(start, draws, used + 1)];
    }

    /**
     * One sorting attempt: a first shuffle, then scan and shuffle again until
     * the scan succeeds, counting the extra shuffles; on success the streak
     * and the counter are reset. The random draws come from `draws`; `used`
     * is how many were consumed, and when they run out before the bars are
     * ascending the attempt stops unsorted.
     */
    method Bogosort(draws: seq<Draw>) returns (sorted: bool, used: nat, ghost runs: seq<nat>)
      requires Valid()
      requires draws != [] && DrawsFit(draws, |numbers|)
      modifies this
      ensures Valid()
      ensures 1 <= used <= |draws|
      ensures numbers == Replay(old(numbers), draws, used)
      ensures NoneAscendingBefore(old(numbers), draws, used)
      ensures |runs| == used
      ensures RunsRecorded(old(numbers), draws, runs)
      ensures !sorted ==> streak == StreakAfter(old(streak), runs)
      ensures sorted ==> Ascending(numbers) && AllOf(colours, Green)
      ensures sorted ==> streak == 0 && iterations == 0
      ensures !sorted ==> used == |draws|
      ensures !sorted ==>
                !Ascending(numbers) && AllOf(colours, White)
                && iterations == old(iterations) + used - 1
                && streak >= old(streak)
    {
      ghost var start := numbers;
      sorted, used, runs := false, 0, [];
      while !sorted && used < |draws|
        invariant Replayed(start, draws, used, runs, old(streak))
        invariant NoneAscendingBefore(start, draws, used)
        invariant used == 0 ==> !sorted && iterations == old(iterations)
        invariant used > 0 ==> sorted == Ascending(numbers)
        invariant used > 0 ==> iterations == old(iterations) + used - 1
        invariant sorted ==> AllOf(colours, Green)
        invariant !sorted && used > 0 ==> AllOf(colours, White)
        invariant streak >= old(streak)
      {
        if used > 0 {
          // the scan just failed: count the attempt before shuffling again
          iterations := iterations + 1;
          NoneAscendingExtend(start, draws, used);
        }
        sorted, runs := ReplayRound(start, draws, used, runs, old(streak));
        used := used + 1;
      }
      if sorted {
        streak := 0;
        iterations := 0;
      }
    }

    /** Grows the problem: a new bar of height N + 1, coloured white. */
    method IncreaseProblemSize()
      requires Valid()
      modifies this
      ensures Valid()
      ensures numbers == old(numbers) + [|old(numbers)| + 1]
      ensures colours == old(colours) + [White]
      ensures streak == old(streak) && iterations == old(iterations)
      ensures OneToN(old(numbers)) ==> OneToN(numbers)
    {
      if OneToN(numbers) {
        GrowOneToN(numbers);
      }
      numbers := numbers + [|numbers| + 1];
      colours := colours + [White];
    }
  }
}
