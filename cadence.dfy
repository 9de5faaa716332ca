/** The cadence domain: the four delivery cadences a user may choose. */
module CadenceDomain {

  /** The declared order of the cadences. */
  const CADENCE_VALUES: seq<string> := ["DAILY", "WEEKLY", "BIWEEKLY", "MONTHLY"]

  const DEFAULT_CADENCE: string := "WEEKLY"

  /** A value of TypeScript type `unknown`, as far as `isCadence` can tell them apart. */
  datatype Unknown = StringValue(s: string) | NonString

  /** `isCadence`: a string equal, character for character, to one of the four values. */
  predicate IsCadence(v: Unknown)
    ensures IsCadence(v) <==>
      v.StringValue? && (v.s == "DAILY" || v.s == "WEEKLY" || v.s == "BIWEEKLY" || v.s == "MONTHLY")
  {
    v.StringValue? && v.s in CADENCE_VALUES
  }

  /** The cadence list holds exactly four pairwise different values. */
  lemma CadenceValuesDistinct()
    ensures |CADENCE_VALUES| == 4
    ensures forall i, j :: 0 <= i < j < |CADENCE_VALUES| ==> CADENCE_VALUES[i] != CADENCE_VALUES[j]
  {
  }

  /** The default is WEEKLY, itself a valid cadence. */
  lemma DefaultCadenceIsCadence()
    ensures DEFAULT_CADENCE == CADENCE_VALUES[1]
    ensures IsCadence(StringValue(DEFAULT_CADENCE))
  {
  }

  /** Only strings are cadences, and the comparison is case-sensitive. */
  lemma CadenceIsCaseSensitive()
    ensures !IsCadence(NonString)
    ensures !IsCadence(StringValue("weekly")) && !IsCadence(StringValue("Weekly"))
  {
  }
}
