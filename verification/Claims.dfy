/** Claims with their provenance (grapharc/memory/store.py). */
module Claims {
  import opened Options
  import opened Texts

  type Id = Text

  /** Timestamps are fixed-width, so their text order is the order of the microseconds they count. */
  type Time = int

  datatype Claim = Claim(
    id: Id, subject: Text, property: Text, value: Text,
    source: Text, observedAt: Time, runId: Option<Text>, confidence: real,
    supersededBy: Option<Id>, supersededAt: Option<Time>)
  {
    predicate IsCurrent() { supersededBy.None? }
  }

  ghost predicate DistinctIds(claims: seq<Claim>) {
    forall i, j :: 0 <= i < j < |claims| ==> claims[i].id != claims[j].id
  }
}
