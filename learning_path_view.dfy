/** The result view: which steps the user has ticked off, the progress
    percentage derived from them, and the rounded value shown on screen.
    Progress is computed with exact reals instead of binary floating point. */
module LearningPathView {
  import opened Types

  /** `progress`: the completed share of the steps in percent, 0 when there
      are no steps. */
  function Progress(completed: nat, total: nat): (p: real)
    ensures total == 0 ==> p == 0.0
    ensures total > 0 ==> p * total as real == 100.0 * completed as real
    ensures completed <= total ==> 0.0 <= p <= 100.0
  {
    if total == 0 then 0.0
    else
      var p := (completed as real / total as real) * 100.0;
      assert p * total as real == 100.0 * completed as real;
      p
  }

  /** `Math.round`: the nearest integer, with halves rounded up. */
  function Round(x: real): (r: int)
    ensures r as real - 0.5 <= x < r as real + 0.5
  {
    (x + 0.5).Floor
  }

  /** The percentage displayed next to the progress bar. */
  function DisplayedPercent(completed: nat, total: nat): (r: int)
    ensures completed <= total ==> 0 <= r <= 100
    ensures total == 0 ==> r == 0
  {
    Round(Progress(completed, total))
  }

  /** The displayed percentage in integer arithmetic: 100·c/n rounded half-up
      is ⌊(200·c + n) / (2·n)⌋. */
  lemma DisplayedPercentExact(completed: nat, total: nat)
    requires total > 0
    ensures DisplayedPercent(completed, total) == (200 * completed + total) / (2 * total)
  {
    var num := 200 * completed + total;
    var den := 2 * total;
    var q := num / den;
    assert q * den <= num < (q + 1) * den;
    var p := Progress(completed, total);
    assert (p + 0.5) * den as real == num as real;
    ScaledBetween(p + 0.5, den as real, q, num as real);
  }

  /** If `x·d` lies between `q·d` and `(q+1)·d` for a positive `d`, then `x`
      lies between `q` and `q+1`. */
  lemma ScaledBetween(x: real, d: real, q: int, n: real)
    requires d > 0.0 && x * d == n
    requires q as real * d <= n < (q + 1) as real * d
    ensures q as real <= x < (q + 1) as real
  {
  }

  /** Four steps with one completed show 25%. */
  lemma OneOfFourShowsQuarter()
    ensures DisplayedPercent(1, 4) == 25
  {
    DisplayedPercentExact(1, 4);
  }

  /** A set of indices with `index` flipped: added if absent, removed if
      present. */
  function Toggled(s: set<int>, index: int): (r: set<int>)
    ensures index in r <==> index !in s
    ensures forall j :: j != index ==> (j in r <==> j in s)
  {
    if index in s then s - {index} else s + {index}
  }

  /** Flipping the same index twice gives back the original set. */
  lemma ToggledTwice(s: set<int>, index: int)
    ensures Toggled(Toggled(s, index), index) == s
  {
  }

  /** A set of indices below `n` has at most `n` elements. */
  lemma {:induction false} IndexSetSize(s: set<int>, n: nat)
    requires forall i :: i in s ==> 0 <= i < n
    ensures |s| <= n
  {
    if n > 0 {
      var rest := s - {n - 1};
      IndexSetSize(rest, n - 1);
    } else {
      assert forall i :: i !in s;
      assert s == {};
    }
  }

  /** One rendered step: the step and whether it is shown as completed. */
  datatype StepCard = StepCard(step: LearningStep, isCompleted: bool)

  /** The view's state: the path it shows and the indices of completed
      steps. */
  class View {
    const path: LearningPath
    var completedSteps: set<int>

    /** Completion toggles come only from step positions. */
    ghost predicate Valid()
      reads this
    {
      forall i :: i in completedSteps ==> 0 <= i < |path.steps|
    }

    /** A freshly shown path has no completed steps. */
    constructor (path: LearningPath)
      ensures this.path == path && completedSteps == {}
      ensures Valid()
    {
      this.path := path;
      completedSteps := {};
    }

    /** `toggleStepCompletion`: copies the set, flips `index` in the copy and
        stores the copy back. */
    method ToggleStepCompletion(index: int)
      requires Valid()
      requires 0 <= index < |path.steps|
      modifies this
      ensures Valid()
      ensures completedSteps == Toggled(old(completedSteps), index)
    {
      var newSet := completedSteps;
      if index in newSet {
        newSet := newSet - {index};
      } else {
        newSet := newSet + {index};
      }
      completedSteps := newSet;
    }

    /** The progress of this view, between 0 and 100. */
    function ProgressPercent(): (p: real)
      reads this
      requires Valid()
      ensures 0.0 <= p <= 100.0
      ensures |path.steps| == 0 ==> p == 0.0
      ensures |path.steps| > 0 ==> p * |path.steps| as real == 100.0 * |completedSteps| as real
    {
      IndexSetSize(completedSteps, |path.steps|);
      Progress(|completedSteps|, |path.steps|)
    }

    /** The rounded progress shown on screen, between 0 and 100. */
    function ShownPercent(): (r: int)
      reads this
      requires Valid()
      ensures 0 <= r <= 100
      ensures r as real - 0.5 <= ProgressPercent() < r as real + 0.5
    {
      IndexSetSize(completedSteps, |path.steps|);
      DisplayedPercent(|completedSteps|, |path.steps|)
    }

    /** The step list: one card per step, in order, marked completed exactly
        when its index is in the completed set. */
    function Cards(): (r: seq<StepCard>)
      reads this
      ensures |r| == |path.steps|
      ensures forall i :: 0 <= i < |r| ==> r[i].step == path.steps[i]
      ensures forall i :: 0 <= i < |r| ==> (r[i].isCompleted <==> i in completedSteps)
    {
      seq(|path.steps|, i requires 0 <= i < |path.steps| reads this => StepCard(path.steps[i], i in completedSteps))
    }
  }
}
