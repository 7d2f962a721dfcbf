/** The steps a search reports and the signals it sends while it runs them. */
module Steps {
  import opened Digits

  /** The texts a finished step can show: a looked-up fact, a number of places, a time-out, the keyword fallback. */
  const LOOKED := "조회"
  const LATE := "시간 초과"
  const FALLBACK := "사전 매칭"

  function Places(n: nat): string {
    Decimal(n) + "곳"
  }

  datatype Step = Step(tool: string, caption: string, badge: string)

  datatype Signal = Run(index: nat, caption: string) | Done(index: nat, caption: string, badge: string)

  /** The signals a list of finished steps has sent: run i, then done i, for consecutive i. */
  function SignalsOf(steps: seq<Step>): seq<Signal> {
    if steps == [] then []
    else
      var i := |steps| - 1;
      SignalsOf(steps[..i]) + [Run(i, steps[i].caption), Done(i, steps[i].caption, steps[i].badge)]
  }

  lemma MoreSignals(steps: seq<Step>, step: Step)
    ensures SignalsOf(steps + [step]) ==
            SignalsOf(steps) + [Run(|steps|, step.caption), Done(|steps|, step.caption, step.badge)]
  {
    assert (steps + [step])[..|steps|] == steps;
  }
}
