/** `presentUser`: turns a stored user row into its API shape. */
module UserPresenter {
  import opened Wrappers
  import opened CadenceDomain
  import opened UserFilters

  /** A user row with its raw preference columns; `rest` holds every other field. */
  datatype StoredUser<T> = StoredUser(rest: T, cadence: string, filters: Option<string>)

  datatype PresentedUser<T> = PresentedUser(rest: T, cadence: string, filters: Option<Filters>)

  function PresentUser<T>(user: StoredUser<T>, parse: string -> Option<Filters>): (p: PresentedUser<T>)
    ensures p.rest == user.rest
    ensures IsCadence(StringValue(p.cadence))
    ensures IsCadence(StringValue(user.cadence)) ==> p.cadence == user.cadence
    ensures !IsCadence(StringValue(user.cadence)) ==> p.cadence == DEFAULT_CADENCE
    ensures p.filters == DeserializeUserFilters(user.filters, parse)
    ensures user.filters == None || user.filters == Some("") ==> p.filters == None
  {
    DefaultCadenceIsCadence();
    PresentedUser(
      user.rest,
      if IsCadence(StringValue(user.cadence)) then user.cadence else DEFAULT_CADENCE,
      DeserializeUserFilters(user.filters, parse))
  }
}
