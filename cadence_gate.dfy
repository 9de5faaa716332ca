/** The cadence table and the gate that decides whether a user is due for
    another digest. Times are milliseconds; `now` is the clock reading. */
module CadenceGate {
  import opened Wrappers
  import opened CadenceDomain
  import opened Accounts
  import opened UserPresenter
  import opened UserFilters
  import Eligibility

  /** `cadenceToDays`: the table, and 7 for anything not in it. */
  function CadenceToDays(cadence: string): (days: nat)
    ensures cadence == "DAILY" ==> days == 1
    ensures cadence == "WEEKLY" ==> days == 7
    ensures cadence == "BIWEEKLY" ==> days == 14
    ensures cadence == "MONTHLY" ==> days == 30
    ensures !IsCadence(StringValue(cadence)) ==> days == 7
  {
    if cadence == "DAILY" then 1
    else if cadence == "BIWEEKLY" then 14
    else if cadence == "MONTHLY" then 30
    else 7
  }

  /** A cadence outside the table waits as long as the default cadence, and
      so as long as the cadence `presentUser` reports for it. */
  lemma UnknownCadenceActsAsDefault<T>(user: StoredUser<T>, parse: string -> Option<Filters>)
    ensures !IsCadence(StringValue(user.cadence)) ==> CadenceToDays(user.cadence) == CadenceToDays(DEFAULT_CADENCE)
    ensures CadenceToDays(PresentUser(user, parse).cadence) == CadenceToDays(user.cadence)
  {
  }

  /** `userIsDueForDigest`: never sent, or a full cadence period has passed. */
  predicate UserIsDueForDigest(user: User, now: int) {
    user.lastDigestSentAt.None? ||
    now - user.lastDigestSentAt.value >= CadenceToDays(user.cadence) * Eligibility.DAY_MS
  }

  /** The cases the unit tests check, for a WEEKLY user, and the boundary. */
  lemma DueExamples(user: User, now: int)
    requires user.cadence == "WEEKLY"
    ensures user.lastDigestSentAt.None? ==> UserIsDueForDigest(user, now)
    ensures user.lastDigestSentAt == Some(now - 8 * 24 * 60 * 60 * 1000) ==> UserIsDueForDigest(user, now)
    ensures user.lastDigestSentAt == Some(now - 2 * 24 * 60 * 60 * 1000) ==> !UserIsDueForDigest(user, now)
    ensures user.lastDigestSentAt == Some(now - 7 * 24 * 60 * 60 * 1000) ==> UserIsDueForDigest(user, now)
    ensures user.lastDigestSentAt == Some(now - 7 * 24 * 60 * 60 * 1000 + 1) ==> !UserIsDueForDigest(user, now)
  {
  }

  /** Once due, a user stays due as time goes on. */
  lemma DueIsMonotone(user: User, now: int, later: int)
    requires now <= later && UserIsDueForDigest(user, now)
    ensures UserIsDueForDigest(user, later)
  {
  }

  /** Right after a digest the user is not due, and becomes due exactly one
      cadence period later. */
  lemma DueAgainAfterOnePeriod(user: User, sentAt: int, now: int)
    requires user.lastDigestSentAt == Some(sentAt)
    ensures UserIsDueForDigest(user, now) <==> now >= sentAt + CadenceToDays(user.cadence) * Eligibility.DAY_MS
    ensures !UserIsDueForDigest(user, sentAt)
  {
  }
}
