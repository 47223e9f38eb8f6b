/** The statistics block: counts over every question of the catalog and a whole-number completion
    rate, recomputed whenever the catalog changes. */
module Statistics {
  import opened Wrappers
  import opened Catalog
  import opened Progress
  import opened Edits

  /** The four numbers shown by the block. */
  datatype Stats = Stats(completed: nat, total: nat, starred: nat, completionRate: nat)

  /** The initial state of the block: every number zero. */
  const ZeroStats: Stats := Stats(0, 0, 0, 0)

  /** `allQuestions.filter(q => q.starred).length` */
  function StarredCount(qs: seq<Question>): (n: nat)
    ensures n <= |qs|
    ensures n == 0 <==> forall k :: 0 <= k < |qs| ==> !qs[k].IsStarred()
    ensures n == |qs| <==> forall k :: 0 <= k < |qs| ==> qs[k].IsStarred()
  {
    if qs == [] then 0 else (if qs[0].IsStarred() then 1 else 0) + StarredCount(qs[1..])
  }

  /** `Math.round((part / whole) * 100)` on exact rationals: the integer nearest to the
      percentage, halves rounded up. */
  function RoundedPercent(part: nat, whole: nat): (r: nat)
    requires 0 < whole && part <= whole
    ensures 2 * whole * r <= 200 * part + whole < 2 * whole * (r + 1)
    ensures r <= 100
    ensures part == whole ==> r == 100
    ensures r == 0 <==> 200 * part < whole
  {
    QuotientFacts(part, whole);
    (200 * part + whole) / (2 * whole)
  }

  lemma QuotientFacts(part: nat, whole: nat)
    requires 0 < whole && part <= whole
    ensures var q := (200 * part + whole) / (2 * whole);
      && 2 * whole * q <= 200 * part + whole < 2 * whole * (q + 1)
      && q <= 100
      && (part == whole ==> q == 100)
      && (q == 0 <==> 200 * part < whole)
  {
    var n := 200 * part + whole;
    var d := 2 * whole;
    var q := n / d;
    assert d * q <= n < d * (q + 1);
    if q > 100 {
      MulLe(d, 101, q);
    }
    if part == whole && q < 100 {
      MulLe(d, q + 1, 100);
    }
    if q > 0 {
      MulLe(d, 1, q);
    }
  }

  lemma MulLe(d: nat, a: nat, b: nat)
    requires a <= b
    ensures d * a <= d * b
  {
    var k := b - a;
    assert d * b == d * a + d * k;
  }

  /** The effect of `useEffect` on a non-empty catalog. */
  function ComputeStats(data: seq<Topic>): (r: Stats)
    ensures r.total == |AllQuestions(data)|
    ensures r.completed == DoneCount(AllQuestions(data)) && r.starred == StarredCount(AllQuestions(data))
    ensures r.completed <= r.total && r.starred <= r.total && r.completionRate <= 100
    ensures r.total == 0 ==> r.completionRate == 0
    ensures r.total > 0 && r.completed == r.total ==> r.completionRate == 100
    ensures r.completed == 0 ==> r.completionRate == 0
  {
    var all := AllQuestions(data);
    var completed := DoneCount(all);
    Stats(completed, |all|, StarredCount(all), if |all| > 0 then RoundedPercent(completed, |all|) else 0)
  }

  /** The completion rate is the dashboard's exact progress of all questions, rounded to the nearest
      whole number: it lies within one half of it. */
  lemma RateIsRoundedProgress(data: seq<Topic>)
    ensures var p := CalculateProgress(AllQuestions(data));
      var rate := ComputeStats(data).completionRate as real;
      rate - 0.5 <= p < rate + 0.5
  {
    var all := AllQuestions(data);
    if |all| > 0 {
      RoundedPercentNear(DoneCount(all), |all|);
    }
  }

  lemma RoundedPercentNear(c: nat, w: nat)
    requires 0 < w && c <= w
    ensures var r := RoundedPercent(c, w) as real;
      r - 0.5 <= RatioPercent(c, w) < r + 0.5
  {
    var r := RoundedPercent(c, w);
    assert 2 * w * r <= 200 * c + w < 2 * w * (r + 1);
    RoundingBounds(RatioPercent(c, w), r as real, w as real, c as real);
  }

  /** From `p * w == 100 * c` and `2wr <= 200c + w < 2w(r + 1)`: `r - 1/2 <= p < r + 1/2`. */
  lemma RoundingBounds(p: real, r: real, w: real, c: real)
    requires w > 0.0 && p * w == 100.0 * c
    requires 2.0 * w * r <= 200.0 * c + w < 2.0 * w * (r + 1.0)
    ensures r - 0.5 <= p < r + 0.5
  {
    var lo := r - 0.5;
    var hi := r + 0.5;
    assert 2.0 * w * r == 2.0 * (r * w);
    assert 2.0 * w * (r + 1.0) == 2.0 * (r * w) + 2.0 * w;
    assert lo * w == r * w - 0.5 * w;
    assert hi * w == r * w + 0.5 * w;
    assert 100.0 * c < r * w + 0.5 * w;
    CancelLe(lo, p, w);
    CancelLt(p, hi, w);
  }

  /** Checking a question never lowers the completed count or the rate, unchecking never raises
      them, and neither changes the total or the starred count. */
  lemma StatusChangeStats(data: seq<Topic>, id: string, checked: bool)
    ensures var before := ComputeStats(data);
      var after := ComputeStats(SetStatus(data, id, checked));
      && after.total == before.total && after.starred == before.starred
      && (checked ==> before.completed <= after.completed && before.completionRate <= after.completionRate)
      && (!checked ==> after.completed <= before.completed && after.completionRate <= before.completionRate)
  {
    var all := AllQuestions(data);
    EditTreeFlattens(data, WithId(id), MarkDone(checked));
    MarkDoneCount(all, id, checked);
    StarredCountKept(all, WithId(id), MarkDone(checked));
    var edited := EditQuestions(all, WithId(id), MarkDone(checked));
    if |all| > 0 {
      if checked {
        RoundedPercentMonotone(DoneCount(all), DoneCount(edited), |all|);
      } else {
        RoundedPercentMonotone(DoneCount(edited), DoneCount(all), |all|);
      }
    }
  }

  lemma RoundedPercentMonotone(a: nat, b: nat, w: nat)
    requires 0 < w && a <= b <= w
    ensures RoundedPercent(a, w) <= RoundedPercent(b, w)
  {
    var ra, rb := RoundedPercent(a, w), RoundedPercent(b, w);
    if ra > rb {
      MulLe(2 * w, rb + 1, ra);
    }
  }

  /** An edit other than a status change keeps the Done count. */
  lemma {:induction false} DoneCountKept(qs: seq<Question>, target: Target, e: Edit)
    requires !e.MarkDone?
    ensures DoneCount(EditQuestions(qs, target, e)) == DoneCount(qs)
  {
    if qs != [] {
      DoneCountKept(qs[1..], target, e);
      assert EditQuestions(qs, target, e)[1..] == EditQuestions(qs[1..], target, e);
    }
  }

  /** An edit that does not touch the star keeps the starred count. */
  lemma {:induction false} StarredCountKept(qs: seq<Question>, target: Target, e: Edit)
    requires e.MarkDone? || e.WriteNote? || e.DefaultStar?
    ensures StarredCount(EditQuestions(qs, target, e)) == StarredCount(qs)
  {
    if qs != [] {
      StarredCountKept(qs[1..], target, e);
      assert EditQuestions(qs, target, e)[1..] == EditQuestions(qs[1..], target, e);
    }
  }

  /** Saving a note changes none of the four numbers. */
  lemma SaveNoteKeepsStats(data: seq<Topic>, id: Option<string>, text: string)
    ensures ComputeStats(Edits.SaveNote(data, id, text)) == ComputeStats(data)
  {
    var target := if id.Some? then WithId(id.value) else NoQuestion;
    EditTreeFlattens(data, target, WriteNote(text));
    DoneCountKept(AllQuestions(data), target, WriteNote(text));
    StarredCountKept(AllQuestions(data), target, WriteNote(text));
  }

  /** Starring or unstarring a question leaves the total, the completed count and the rate as they were. */
  lemma ToggleStarredStats(data: seq<Topic>, id: string)
    ensures var before := ComputeStats(data);
      var after := ComputeStats(Edits.ToggleStarred(data, id));
      after.total == before.total && after.completed == before.completed
      && after.completionRate == before.completionRate
  {
    EditTreeFlattens(data, WithId(id), FlipStar);
    DoneCountKept(AllQuestions(data), WithId(id), FlipStar);
  }

  /** With nothing stored, the block shows one of four questions completed, one starred, and 25%. */
  lemma SeedStats()
    ensures ComputeStats(LoadInitialData(None)) == Stats(1, 4, 1, 25)
  {
    SeedCounts();
    StatsOfCounts(LoadInitialData(None));
  }

  lemma StatsOfCounts(data: seq<Topic>)
    requires var all := AllQuestions(data); |all| == 4 && DoneCount(all) == 1 && StarredCount(all) == 1
    ensures ComputeStats(data) == Stats(1, 4, 1, 25)
  {
    OneInFourRounds();
  }

  lemma OneInFourRounds()
    ensures RoundedPercent(1, 4) == 25
  {
    var r := RoundedPercent(1, 4);
    assert 8 * r <= 204 < 8 * (r + 1);
  }

  /** One of the four seed questions is Done and one is starred. */
  lemma SeedCounts()
    ensures var all := AllQuestions(DefaultData());
      |all| == 4 && DoneCount(all) == 1 && StarredCount(all) == 1
  {
    var d := DefaultData();
    var a, b := d[0].subtopics[0].questions, d[1].subtopics[0].questions;
    SeedFlattened();
    DoneCountAppend(a, b);
    StarredCountAppend(a, b);
    assert a[1..][1..] == [] && b[1..][1..] == [];
    assert DoneCount(a) == 1 && DoneCount(b) == 0;
    assert StarredCount(a) == 0 && StarredCount(b) == 1;
  }

  lemma {:induction false} StarredCountAppend(a: seq<Question>, b: seq<Question>)
    ensures StarredCount(a + b) == StarredCount(a) + StarredCount(b)
  {
    if a != [] {
      assert (a + b)[1..] == a[1..] + b;
      StarredCountAppend(a[1..], b);
    } else {
      assert a + b == b;
    }
  }

  /** The statistics block's state. */
  class StatisticsBlock {
    var stats: Stats

    constructor ()
      ensures stats == ZeroStats
    {
      stats := ZeroStats;
    }

    /** The effect run when the catalog changes: an empty catalog leaves the numbers as they were. */
    method Refresh(data: seq<Topic>)
      modifies this
      ensures |data| == 0 ==> stats == old(stats)
      ensures |data| > 0 ==> stats == ComputeStats(data)
    {
      if |data| == 0 {
        return;
      }
      stats := ComputeStats(data);
    }
  }
}
