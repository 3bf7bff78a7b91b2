/** The campaign_sequence_steps table. */
module Steps {
  import opened Common

  datatype StepRow = StepRow(campaign: int, number: int, delayDays: int, subject: string, body: string, active: bool)

  /** Rows by primary key. */
  type StepTable = map<int, StepRow>

  predicate SameStep(s: StepRow, r: StepRow) { s.campaign == r.campaign && s.number == r.number }

  /** UNIQUE (campaign_id, step_number). */
  ghost predicate UniqueNumbers(steps: StepTable) {
    forall a, b :: a in steps && b in steps && SameStep(steps[a], steps[b]) ==> a == b
  }
}
