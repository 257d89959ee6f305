/**
 * The conversion progress panel (src/components/ProcessingStatus.tsx): the processing
 * steps, the four listed steps and the classifier that gives each listed step a status.
 */
module ProcessingStatus {
  import opened Wrappers

  /** ProcessingStep: the page's conversion state. */
  datatype ProcessingStep = Idle | Reading | Detecting | Formatting | Generating | Complete

  /** The status a listed step is drawn with: 'complete', 'current' or 'pending'. */
  datatype StepStatus = StepComplete | StepCurrent | StepPending

  /** `steps`: the four steps the panel lists, in display order. */
  const ListedSteps: seq<ProcessingStep> := [Reading, Detecting, Formatting, Generating]

  /** `stepOrder`: the order `getStepStatus` compares positions in. */
  const StepOrder: seq<ProcessingStep> := [Reading, Detecting, Formatting, Generating, Complete]

  /** `Array.prototype.indexOf`: the first position of `x`, or -1 when absent. */
  function IndexOf(xs: seq<ProcessingStep>, x: ProcessingStep): (r: int)
    ensures -1 <= r < |xs|
    ensures r >= 0 ==> xs[r] == x && forall j :: 0 <= j < r ==> xs[j] != x
    ensures r == -1 <==> x !in xs
  {
    if xs == [] then -1
    else if xs[0] == x then 0
    else
      var t := IndexOf(xs[1..], x);
      if t == -1 then -1 else t + 1
  }

  /** How far along the conversion a step is: its position in the conversion order, -1 for 'idle'. */
  function Rank(s: ProcessingStep): int {
    match s
    case Idle => -1
    case Reading => 0
    case Detecting => 1
    case Formatting => 2
    case Generating => 3
    case Complete => 4
  }

  /** The position `indexOf` finds in `stepOrder` is the step's rank. */
  lemma IndexOfStepOrderIsRank(s: ProcessingStep)
    ensures IndexOf(StepOrder, s) == Rank(s)
  {
    var r := IndexOf(StepOrder, s);
    if s == Idle {
      assert s !in StepOrder;
    } else {
      assert StepOrder[Rank(s)] == s;
      assert s in StepOrder;
      assert forall j :: 0 <= j < |StepOrder| && j != Rank(s) ==> StepOrder[j] != s;
    }
  }

  /** `getStepStatus(stepId)` for the panel showing `current`. */
  function GetStepStatus(current: ProcessingStep, step: ProcessingStep): (st: StepStatus)
    ensures current == Complete ==> st == StepComplete
    ensures st == StepCurrent ==> step == current
    ensures step == current && current != Complete ==> st == StepCurrent
  {
    var currentIndex := IndexOf(StepOrder, current);
    var stepIndex := IndexOf(StepOrder, step);
    if stepIndex < currentIndex || current == Complete then StepComplete
    else if stepIndex == currentIndex then StepCurrent
    else StepPending
  }

  /**
   * A step earlier than the current one is complete, the current one is current, a later
   * one is pending; when the conversion is complete, every step is complete.
   */
  lemma StatusByRank(current: ProcessingStep, step: ProcessingStep)
    ensures current == Complete ==> GetStepStatus(current, step) == StepComplete
    ensures current != Complete ==>
      (GetStepStatus(current, step) == StepComplete <==> Rank(step) < Rank(current))
    ensures current != Complete ==>
      (GetStepStatus(current, step) == StepCurrent <==> Rank(step) == Rank(current))
    ensures current != Complete ==>
      (GetStepStatus(current, step) == StepPending <==> Rank(step) > Rank(current))
  {
    IndexOfStepOrderIsRank(current);
    IndexOfStepOrderIsRank(step);
  }

  /** What the panel shows: one status per listed step, and whether the completion banner is shown. */
  datatype StatusView = StatusView(statuses: seq<StepStatus>, banner: bool)

  /** The rendered panel: nothing while idle. */
  function Render(current: ProcessingStep): (v: Option<StatusView>)
    ensures v.None? <==> current == Idle
    ensures v.Some? ==> |v.value.statuses| == |ListedSteps|
    ensures v.Some? ==> (v.value.banner <==> current == Complete)
  {
    if current == Idle then None
    else Some(StatusView(
      seq(|ListedSteps|, i requires 0 <= i < |ListedSteps| => GetStepStatus(current, ListedSteps[i])),
      current == Complete))
  }

  /** Orders the statuses as they appear down the list: complete, then current, then pending. */
  function StatusOrder(st: StepStatus): nat {
    match st
    case StepComplete => 2
    case StepCurrent => 1
    case StepPending => 0
  }

  /** Once the conversion is complete, every listed step is shown complete. */
  lemma CompleteShowsAllComplete()
    ensures Render(Complete).Some?
    ensures forall st :: st in Render(Complete).value.statuses ==> st == StepComplete
  {
    var sts := Render(Complete).value.statuses;
    forall i | 0 <= i < |sts| ensures sts[i] == StepComplete {
      StatusByRank(Complete, ListedSteps[i]);
    }
  }

  /**
   * While a step among reading..generating runs, exactly the listed step equal to it is
   * current; the statuses never go back up the order along the list (all completes, then
   * at most one current, then all pendings).
   */
  lemma StatusesAlongList(current: ProcessingStep)
    requires current != Idle
    ensures var sts := Render(current).value.statuses;
      && (forall i, j :: 0 <= i <= j < |sts| ==> StatusOrder(sts[i]) >= StatusOrder(sts[j]))
      && (forall i, j :: 0 <= i < j < |sts| ==> !(sts[i] == StepCurrent && sts[j] == StepCurrent))
      && (current != Complete ==> exists i :: 0 <= i < |sts| && sts[i] == StepCurrent)
  {
    var sts := Render(current).value.statuses;
    assert forall i :: 0 <= i < |ListedSteps| ==> Rank(ListedSteps[i]) == i;
    forall i | 0 <= i < |sts| ensures
      && (current == Complete ==> sts[i] == StepComplete)
      && (current != Complete ==> (sts[i] == StepComplete <==> i < Rank(current)))
      && (current != Complete ==> (sts[i] == StepCurrent <==> i == Rank(current)))
      && (current != Complete ==> (sts[i] == StepPending <==> i > Rank(current)))
    {
      StatusByRank(current, ListedSteps[i]);
    }
    if current != Complete {
      assert sts[Rank(current)] == StepCurrent;
    }
  }
}
