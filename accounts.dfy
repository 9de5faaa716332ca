/** The persisted user row the digest pipeline reads. */
module Accounts {
  import opened Wrappers
  import opened GithubService
  import opened UserFilters

  /** A user: `filters` is the stored filter object (`None` for a null column),
      `lastDigestSentAt` the time of the last digest in milliseconds. */
  datatype User = User(
    id: UserId,
    username: string,
    email: Option<string>,
    notificationEmail: Option<string>,
    cadence: string,
    filters: Option<Filters>,
    lastDigestSentAt: Option<int>)
}
