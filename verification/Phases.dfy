/** The three phases of a repair attempt, by name and by number. */
module Phases {
  const MATERIALIZATION := "materialization_claim"
  const ADAPTER := "adapter_claim"
  const TEST := "test_claim"

  const ATTEMPT_CAP := 2

  // phaseBySequence
  function PhaseBySequence(sequence: int): string {
    if sequence == 1 then MATERIALIZATION else if sequence == 2 then ADAPTER else if sequence == 3 then TEST else ""
  }

  // phaseSequence
  function PhaseSequence(phase: string): int {
    if phase == MATERIALIZATION then 1 else if phase == ADAPTER then 2 else if phase == TEST then 3 else 0
  }

  /** The two maps are inverse to each other on the three phases, and nothing else has a number. */
  lemma PhasesAreNumbered(phase: string, sequence: int)
    ensures 1 <= sequence <= 3 ==> (PhaseSequence(phase) == sequence <==> phase == PhaseBySequence(sequence))
    ensures 0 <= PhaseSequence(phase) <= 3
    ensures PhaseSequence("materialization_claim") == 1 && PhaseSequence("adapter_claim") == 2
    ensures PhaseSequence("test_claim") == 3
  {
    assert MATERIALIZATION[0] == 'm' && ADAPTER[0] == 'a' && TEST[0] == 't';
  }
}
