/** The memory record and its lifecycle enumerations (strata/canonical/records.py). */
module Records {

  type Id = nat

  datatype Option<+T> = None | Some(value: T)

  datatype RecordType =
    | Fact | Episode | Profile | Guardrail | Reflection | Aggregation | Skill | Routine | System

  datatype Tier = L0 | L1 | L1_5 | L2 | L3 | L4

  datatype Status =
    | Candidate | Active | Reinforced | Stale | Superseded | Contradicted | Archived | Deleted

  datatype Sensitivity = Normal | Personal | Sensitive | Secret

  datatype Relation = Supersedes | Contradicts | DerivedFrom | SourceOf | Aggregates

  datatype Record = Record(
    id: Id,
    recordType: RecordType,
    subtype: Option<string>,
    tier: Tier,
    content: string,
    contentHash: string,
    status: Status,
    confidence: Option<real>,
    salience: Option<real>,
    sensitivity: Sensitivity,
    validFrom: Option<int>,
    validUntil: Option<int>,
    updatedAt: int
  )

  /** The two statuses that active recall and reflection accept. */
  predicate IsActive(s: Status) {
    s == Active || s == Reinforced
  }
}
