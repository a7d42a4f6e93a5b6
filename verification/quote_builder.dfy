/** The wizard shell (components/quote-builder.tsx): which step component
    is shown for the current step index. */
module QuoteBuilder {
  import StepIndicator

  datatype StepComponent = StartQuote | ClientSelection | ServiceSelection | ReviewCustomize | GenerateSend

  datatype StepEntry = StepEntry(title: string, component: StepComponent)

  /** The step table, in wizard order. */
  const Steps: seq<StepEntry> := [
    StepEntry("Start Quote", StartQuote),
    StepEntry("Select Client", ClientSelection),
    StepEntry("Choose Services", ServiceSelection),
    StepEntry("Review & Customize", ReviewCustomize),
    StepEntry("Generate & Send", GenerateSend)
  ]

  /** `steps[currentStep]?.component || StartQuote`. */
  function ComponentFor(current: int): (c: StepComponent)
    ensures 0 <= current < |Steps| ==> c == Steps[current].component
    ensures !(0 <= current < |Steps|) ==> c == StartQuote
  {
    if 0 <= current < |Steps| then Steps[current].component else StartQuote
  }

  /** The table and the progress bar list the same five titles in the same
      order. */
  lemma TitlesMatchIndicator()
    ensures |Steps| == |StepIndicator.StepTitles| == 5
    ensures forall i :: 0 <= i < |Steps| ==> Steps[i].title == StepIndicator.StepTitles[i]
  {
  }

  /** Every component is shown for exactly one in-range step, so the lookup
      is a bijection between 0..4 and the five components. */
  lemma EachComponentHasOneStep(c: StepComponent)
    ensures exists i :: 0 <= i < 5 && ComponentFor(i) == c
    ensures forall i, j :: 0 <= i < j < 5 ==> ComponentFor(i) != ComponentFor(j)
  {
    match c
    case StartQuote => assert ComponentFor(0) == c;
    case ClientSelection => assert ComponentFor(1) == c;
    case ServiceSelection => assert ComponentFor(2) == c;
    case ReviewCustomize => assert ComponentFor(3) == c;
    case GenerateSend => assert ComponentFor(4) == c;
  }
}
