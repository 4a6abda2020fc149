/**
 * The value view of the bar chart: the sortedness test the scan applies, the
 * pairwise swap a shuffle step performs, the ascending run the streak
 * records, and the invariant that the bars are a permutation of 1..N.
 */
module Bars {

  /** Display colour of one bar. */
  datatype Colour = White | Green | Red

  /** One random draw of `shuffle`: the two positions it exchanges. */
  datatype Draw = Draw(first: nat, second: nat)

  /** The bar at position `i` is taller than the one before it: the test `isSorted` applies. */
  predicate RisesAt(s: seq<int>, i: nat)
    requires 0 < i < |s|
  {
    s[i - 1] < s[i]
  }

  /** Every bar is taller than the one before it. */
  predicate Ascending(s: seq<int>)
  {
    forall i :: 0 < i < |s| ==> RisesAt(s, i)
  }

  /** A bar taller than the last one extends an ascending sequence. */
  lemma AscendingSnoc(s: seq<int>, x: int)
    requires Ascending(s) && (|s| > 0 ==> s[|s| - 1] < x)
    ensures Ascending(s + [x])
  {
    var t := s + [x];
    forall i | 0 < i < |t|
      ensures RisesAt(t, i)
    {
      if i < |s| {
        assert RisesAt(s, i);
      }
    }
  }

  /** A bar shorter than the first one extends an ascending sequence at the front. */
  lemma AscendingCons(x: int, s: seq<int>)
    requires Ascending(s) && (|s| > 0 ==> x < s[0])
    ensures Ascending([x] + s)
  {
    var t := [x] + s;
    forall i | 0 < i < |t|
      ensures RisesAt(t, i)
    {
      if i > 1 {
        assert RisesAt(s, i - 1);
      }
    }
  }

  /** Dropping the first bar keeps a sequence ascending. */
  lemma AscendingTail(s: seq<int>)
    requires Ascending(s) && |s| > 0
    ensures Ascending(s[1..])
  {
    forall i | 0 < i < |s| - 1
      ensures RisesAt(s[1..], i)
    {
      assert RisesAt(s, i + 1);
    }
  }

  /** Every colour in `cs` is `c`. */
  predicate AllOf(cs: seq<Colour>, c: Colour)
  {
    forall k :: 0 <= k < |cs| ==> cs[k] == c
  }

  /** The bars after exchanging positions `i` and `j`: a rearrangement of the same bars. */
  function Swap(s: seq<int>, i: nat, j: nat): (r: seq<int>)
    requires i < |s| && j < |s|
    ensures |r| == |s|
    ensures multiset(r) == multiset(s)
  {
    s[j := s[i]][i := s[j]]
  }

  /** A swap exchanges the two named bars, leaves every other bar in place, and is a no-op on one position. */
  lemma SwapExchanges(s: seq<int>, i: nat, j: nat)
    requires i < |s| && j < |s|
    ensures var r := Swap(s, i, j);
      r[i] == s[j] && r[j] == s[i]
      && (forall k :: 0 <= k < |s| && k != i && k != j ==> r[k] == s[k])
      && (i == j ==> r == s)
  {
  }

  /** Every draw names positions of a sequence of length `n`. */
  predicate DrawsFit(draws: seq<Draw>, n: nat)
  {
    forall k :: 0 <= k < |draws| ==> draws[k].first < n && draws[k].second < n
  }

  /** The bars after the first `k` swaps of `draws`, in order. */
  function Replay(s: seq<int>, draws: seq<Draw>, k: nat): (r: seq<int>)
    requires k <= |draws| && DrawsFit(draws, |s|)
    ensures |r| == |s|
    ensures multiset(r) == multiset(s)
  {
    if k == 0 then s
    else Swap(Replay(s, draws, k - 1), draws[k - 1].first, draws[k - 1].second)
  }

  /** The scan after the first `k` draws finds the bars out of order. */
  predicate ScanFailsAfter(s: seq<int>, draws: seq<Draw>, k: nat)
    requires k <= |draws| && DrawsFit(draws, |s|)
  {
    !Ascending(Replay(s, draws, k))
  }

  /** No scan after the first 1, ..., n - 1 draws found the bars ascending. */
  predicate NoneAscendingBefore(s: seq<int>, draws: seq<Draw>, n: nat)
    requires n <= |draws| && DrawsFit(draws, |s|)
  {
    forall k :: 1 <= k < n ==> ScanFailsAfter(s, draws, k)
  }

  /** A failed scan after n draws extends the unsuccessful history by one. */
  lemma NoneAscendingExtend(s: seq<int>, draws: seq<Draw>, n: nat)
    requires 1 <= n < |draws| && DrawsFit(draws, |s|)
    requires NoneAscendingBefore(s, draws, n) && ScanFailsAfter(s, draws, n)
    ensures NoneAscendingBefore(s, draws, n + 1)
  {
  }

  /**
   * Length of the longest strictly ascending prefix: the value the running
   * counter of the scan reaches before the first bar that is not taller than
   * its predecessor (0 for no bars, 1 when the second bar already fails).
   */
  function AscentRun(s: seq<int>): (r: nat)
    ensures r <= |s|
    ensures |s| > 0 ==> 1 <= r
    ensures Ascending(s[..r])
    ensures 0 < r < |s| ==> s[r] <= s[r - 1]
  {
    if |s| <= 1 then |s|
    else if s[0] < s[1] then
      var tail := AscentRun(s[1..]);
      AscendingCons(s[0], s[1..][..tail]);
      assert s[..1 + tail] == [s[0]] + s[1..][..tail];
      1 + tail
    else 1
  }

  /** An ascending prefix of length f bounds the run from below. */
  lemma {:induction false} AscentRunAtLeast(s: seq<int>, f: nat)
    requires f <= |s| && Ascending(s[..f])
    ensures AscentRun(s) >= f
  {
    if f >= 2 {
      assert RisesAt(s[..f], 1);
      AscendingTail(s[..f]);
      assert s[1..][..f - 1] == s[..f][1..];
      AscentRunAtLeast(s[1..], f - 1);
    }
  }

  /** A bar at position f that is not taller than its predecessor bounds the run from above. */
  lemma {:induction false} AscentRunAtMost(s: seq<int>, f: nat)
    requires 0 < f < |s| && s[f] <= s[f - 1]
    ensures AscentRun(s) <= f
  {
    if f >= 2 && s[0] < s[1] {
      AscentRunAtMost(s[1..], f - 1);
    }
  }

  /** The scan's stopping point determines the run: an ascending prefix ended by a non-ascent or by the end. */
  lemma AscentRunUnique(s: seq<int>, f: nat)
    requires f <= |s|
    requires |s| > 0 ==> 1 <= f
    requires Ascending(s[..f])
    requires 0 < f < |s| ==> s[f] <= s[f - 1]
    ensures AscentRun(s) == f
  {
    AscentRunAtLeast(s, f);
    if f < |s| {
      AscentRunAtMost(s, f);
    }
  }

  /** A sequence is ascending exactly when its ascending prefix is all of it. */
  lemma AscendingIffFullRun(s: seq<int>)
    ensures Ascending(s) <==> AscentRun(s) == |s|
  {
    if Ascending(s) {
      assert s[..|s|] == s;
      AscentRunUnique(s, |s|);
    }
    if AscentRun(s) == |s| {
      assert s[..|s|] == s;
    }
  }

  /**
   * The stored streak after one scan whose ascending prefix has length `run`:
   * the counter starts at 1 and is compared only after an ascent, so a run
   * is recorded once it has reached 2 and beats the stored value.
   */
  function NextStreak(prev: nat, run: nat): (r: nat)
    ensures r >= prev
    ensures r == prev || r == run
    ensures run >= 2 ==> r >= run
    ensures run < 2 ==> r == prev
  {
    if run >= 2 && run > prev then run else prev
  }

  /** The stored streak after scans whose ascending prefixes have lengths `runs`, in order. */
  function StreakAfter(prev: nat, runs: seq<nat>): nat
  {
    if runs == [] then prev
    else NextStreak(StreakAfter(prev, runs[..|runs| - 1]), runs[|runs| - 1])
  }

  /**
   * Across several scans the streak is a running maximum: it never drops
   * below its start value, it covers every run of length at least 2, and it
   * is either the start value or one of those runs.
   */
  lemma {:induction false} StreakIsRunningMaximum(prev: nat, runs: seq<nat>)
    ensures StreakAfter(prev, runs) >= prev
    ensures forall k :: 0 <= k < |runs| && runs[k] >= 2 ==> StreakAfter(prev, runs) >= runs[k]
    ensures StreakAfter(prev, runs) == prev
         || exists k :: 0 <= k < |runs| && runs[k] >= 2 && StreakAfter(prev, runs) == runs[k]
  {
    if runs != [] {
      var init := runs[..|runs| - 1];
      StreakIsRunningMaximum(prev, init);
      assert forall k :: 0 <= k < |init| ==> init[k] == runs[k];
    }
  }

  /** The bars 1, 2, ..., n in order. */
  function Iota(n: nat): seq<int>
  {
    seq(n, k => k + 1)
  }

  /** The bars are a permutation of 1..N, N being their number. */
  ghost predicate OneToN(s: seq<int>)
  {
    multiset(s) == multiset(Iota(|s|))
  }

  /** In an ascending sequence, bars j - i positions apart differ by at least j - i. */
  lemma {:induction false} AscendingGap(s: seq<int>, i: nat, j: nat)
    requires Ascending(s) && i <= j < |s|
    ensures s[j] - s[i] >= j - i
  {
    if i < j {
      AscendingGap(s, i, j - 1);
      assert RisesAt(s, j);
    }
  }

  /** Every bar of a permutation of 1..N lies between 1 and N. */
  lemma OneToNBounds(s: seq<int>, k: nat)
    requires OneToN(s) && k < |s|
    ensures 1 <= s[k] <= |s|
  {
    assert s[k] in multiset(s);
    assert s[k] in multiset(Iota(|s|));
    var j :| 0 <= j < |s| && Iota(|s|)[j] == s[k];
  }

  /** The only ascending permutation of 1..N is 1, 2, ..., N. */
  lemma SortedOneToN(s: seq<int>)
    requires OneToN(s) && Ascending(s)
    ensures s == Iota(|s|)
  {
    var n := |s|;
    forall k | 0 <= k < n
      ensures s[k] == k + 1
    {
      OneToNBounds(s, 0);
      OneToNBounds(s, n - 1);
      AscendingGap(s, 0, k);
      AscendingGap(s, k, n - 1);
    }
  }

  /** Replayed swaps that leave a permutation of 1..N ascending leave it as 1, 2, ..., N. */
  lemma ReplaySortedIsIota(s: seq<int>, draws: seq<Draw>, k: nat)
    requires k <= |draws| && DrawsFit(draws, |s|)
    requires OneToN(s) && Ascending(Replay(s, draws, k))
    ensures Replay(s, draws, k) == Iota(|s|)
  {
    SortedOneToN(Replay(s, draws, k));
  }

  /** The ascending run the scan after the first `k` draws finds. */
  function ScanRun(s: seq<int>, draws: seq<Draw>, k: nat): nat
    requires k <= |draws| && DrawsFit(draws, |s|)
  {
    AscentRun(Replay(s, draws, k))
  }

  /** `runs` holds the ascending run of each scan after the first 1, 2, ..., |runs| draws. */
  predicate RunsRecorded(s: seq<int>, draws: seq<Draw>, runs: seq<nat>)
    requires |runs| <= |draws| && DrawsFit(draws, |s|)
  {
    forall k :: 0 <= k < |runs| ==> runs[k] == ScanRun(s, draws, k + 1)
  }

  /** Recording the run of the next scan keeps the record. */
  lemma RunsRecordedExtend(s: seq<int>, draws: seq<Draw>, runs: seq<nat>)
    requires |runs| < |draws| && DrawsFit(draws, |s|)
    requires RunsRecorded(s, draws, runs)
    ensures RunsRecorded(s, draws, runs + [ScanRun(s, draws, |runs| + 1)])
  {
  }

  /** One more scan updates the folded streak by `NextStreak`. */
  lemma StreakAfterSnoc(prev: nat, runs: seq<nat>, run: nat)
    ensures StreakAfter(prev, runs + [run]) == NextStreak(StreakAfter(prev, runs), run)
  {
    assert (runs + [run])[..|runs|] == runs;
  }

  /** Appending N + 1 to a permutation of 1..N gives a permutation of 1..N+1. */
  lemma GrowOneToN(s: seq<int>)
    requires OneToN(s)
    ensures OneToN(s + [|s| + 1])
  {
    assert Iota(|s| + 1) == Iota(|s|) + [|s| + 1];
  }
}
