/** The wizard's progress bar (components/step-indicator.tsx): how each of
    the five steps is drawn for the current step. */
module StepIndicator {
  import opened Wrappers

  /** The step titles, in wizard order. */
  const StepTitles: seq<string> :=
    ["Start Quote", "Select Client", "Choose Services", "Review & Customize", "Generate & Send"]

  datatype StepState = Completed | Current | Pending

  /** How one step is drawn: its state, the number in its circle (`None`
      when a check mark replaces it), whether its label is highlighted, and
      the connector after it (`None` for the last step, otherwise whether it
      is highlighted). */
  datatype StepView = StepView(
    title: string,
    state: StepState,
    badge: Option<int>,
    labelHighlighted: bool,
    connector: Option<bool>)

  function Classify(index: int, current: int): StepState
  {
    if index < current then Completed
    else if index == current then Current
    else Pending
  }

  function ViewOf(index: nat, current: int): (v: StepView)
    requires index < |StepTitles|
  {
    StepView(
      StepTitles[index],
      Classify(index, current),
      if index < current then None else Some(index + 1),
      index <= current,
      if index < |StepTitles| - 1 then Some(index < current) else None)
  }

  /** The whole bar for `current`. */
  function Indicator(current: int): (r: seq<StepView>)
    ensures |r| == 5
    ensures forall i :: 0 <= i < 5 ==> r[i].title == StepTitles[i]
    ensures forall i :: 0 <= i < 5 ==> (r[i].state == Completed <==> i < current)
    ensures forall i :: 0 <= i < 5 ==> (r[i].state == Current <==> i == current)
    ensures forall i :: 0 <= i < 5 ==> (r[i].state == Pending <==> i > current)
    ensures forall i :: 0 <= i < 5 ==> (r[i].badge.None? <==> r[i].state == Completed)
    ensures forall i :: 0 <= i < 5 ==> (r[i].badge.Some? ==> r[i].badge.value == i + 1)
    ensures forall i :: 0 <= i < 5 ==> (r[i].labelHighlighted <==> r[i].state != Pending)
    ensures forall i :: 0 <= i < 5 ==> (r[i].connector.None? <==> i == 4)
    ensures forall i :: 0 <= i < 4 ==> (r[i].connector == Some(r[i].state == Completed))
  {
    seq(|StepTitles|, i requires 0 <= i < |StepTitles| => ViewOf(i, current))
  }

  /** The number of steps drawn as current. */
  function CountCurrent(views: seq<StepView>): nat
  {
    if |views| == 0 then 0
    else (if views[0].state == Current then 1 else 0) + CountCurrent(views[1..])
  }

  lemma {:induction false} CountCurrentBound(views: seq<StepView>, offset: int, current: int)
    requires forall i :: 0 <= i < |views| ==> (views[i].state == Current <==> i + offset == current)
    ensures CountCurrent(views) == if offset <= current < offset + |views| then 1 else 0
  {
    if |views| > 0 {
      CountCurrentBound(views[1..], offset + 1, current);
    }
  }

  /** For a current step in range exactly one step is current; outside the
      range none is. */
  lemma ExactlyOneCurrent(current: int)
    ensures CountCurrent(Indicator(current)) == if 0 <= current < 5 then 1 else 0
  {
    CountCurrentBound(Indicator(current), 0, current);
  }
}
