/** The repository source adapter: the authenticated "starred repositories"
    call, reduced to what it computes. The HTTP round trip is the `github`
    parameter; times are milliseconds since the epoch. */
module GithubService {
  import opened Wrappers

  type UserId = string

  datatype Owner = Owner(login: string, avatarUrl: string, htmlUrl: string)

  /** One element of the response array, read as a repository. `owner` is
      `None` for an element without an `owner` object, such as a
      `{starred_at, repo}` envelope of the `star+json` media type the client
      asks for; the other fields then read as absent values. */
  datatype RawItem = RawItem(
    id: int, fullName: string, description: Option<string>, language: Option<string>,
    stargazersCount: int, htmlUrl: string, archived: Option<bool>, fork: Option<bool>,
    topics: Option<seq<string>>, createdAt: Option<string>, updatedAt: Option<string>,
    starredAt: Option<int>, owner: Option<Owner>)

  /** `StarredRepository`; `starredAt` is `None` when the API gave no star time. */
  datatype StarredRepository = StarredRepository(
    id: int, fullName: string, description: Option<string>, language: Option<string>,
    stargazersCount: int, htmlUrl: string, archived: Option<bool>, fork: Option<bool>,
    topics: seq<string>, createdAt: Option<string>, updatedAt: Option<string>,
    starredAt: Option<int>, owner: Owner)

  /** The response body: a bare array, or an object whose `items` may be missing. */
  datatype ResponseData = ArrayBody(elements: seq<RawItem>) | ObjectBody(items: Option<seq<RawItem>>)

  datatype SortField = Created | Updated
  datatype Direction = Asc | Desc

  /** `FetchStarredParams`: what a caller may pass. */
  datatype FetchStarredParams = FetchStarredParams(
    page: Option<int>, perPage: Option<int>, since: Option<string>,
    direction: Option<Direction>, sort: Option<SortField>)

  /** The query string actually sent. */
  datatype RequestParams = RequestParams(perPage: int, page: int, sort: SortField, direction: Direction)

  datatype StarredRequest = StarredRequest(path: string, params: RequestParams, authorization: string)

  /** `MissingOwner` is the `TypeError` that reading `item.owner.login` throws
      on an element without an owner. */
  datatype FetchError = NoGithubToken | GitHubApiError(message: string) | MissingOwner

  const NO_TOKEN_MESSAGE := "No GitHub token available"

  /** The text of the error the caller sees. */
  function ErrorMessage(e: FetchError): string {
    match e
    case NoGithubToken => NO_TOKEN_MESSAGE
    case GitHubApiError(m) => "GitHub API error: " + m
    case MissingOwner => "Cannot read properties of undefined (reading 'login')"
  }

  /** `toStarredRepository`: `None` where it throws, on an element without an owner. */
  function ToStarredRepository(item: RawItem): (r: Option<StarredRepository>)
    ensures r.None? <==> item.owner.None?
    ensures r.Some? ==>
      && r.value.topics == (if item.topics.Some? then item.topics.value else [])
      && r.value.id == item.id && r.value.fullName == item.fullName && r.value.description == item.description
      && r.value.language == item.language && r.value.stargazersCount == item.stargazersCount
      && r.value.htmlUrl == item.htmlUrl && r.value.archived == item.archived && r.value.fork == item.fork
      && r.value.createdAt == item.createdAt && r.value.updatedAt == item.updatedAt
      && r.value.starredAt == item.starredAt && r.value.owner == item.owner.value
  {
    match item.owner
    case None => None
    case Some(o) =>
      Some(StarredRepository(
        item.id, item.fullName, item.description, item.language, item.stargazersCount,
        item.htmlUrl, item.archived, item.fork, item.topics.GetOr([]), item.createdAt,
        item.updatedAt, item.starredAt, Owner(o.login, o.avatarUrl, o.htmlUrl)))
  }

  /** Normalising is lossless up to the topics default: an item whose topics
      and owner are present is recovered from its normalised form. */
  lemma NormaliseIsLossless(a: RawItem, b: RawItem)
    requires a.topics.Some? && b.topics.Some? && a.owner.Some? && b.owner.Some?
    ensures ToStarredRepository(a) == ToStarredRepository(b) <==> a == b
  {
  }

  /** `Array.isArray(data) ? data : data.items`, then `?? []`. */
  function SelectItems(data: ResponseData): (items: seq<RawItem>)
    ensures data.ArrayBody? ==> items == data.elements
    ensures data.ObjectBody? && data.items.Some? ==> items == data.items.value
    ensures data == ObjectBody(None) ==> items == []
  {
    match data
    case ArrayBody(elements) => elements
    case ObjectBody(items) => items.GetOr([])
  }

  /** `(starred ?? []).map(toStarredRepository)`: it throws when some
      element has no owner, and otherwise normalises each element in order. */
  function DecodeResponse(data: ResponseData): (r: Result<seq<StarredRepository>, FetchError>)
    ensures r.Failure? <==> exists i :: 0 <= i < |SelectItems(data)| && SelectItems(data)[i].owner.None?
    ensures r.Failure? ==> r.error == MissingOwner
    ensures r.Success? ==> |r.value| == |SelectItems(data)|
    ensures r.Success? ==>
      forall i :: 0 <= i < |r.value| ==> ToStarredRepository(SelectItems(data)[i]) == Some(r.value[i])
  {
    var items := SelectItems(data);
    if forall i :: 0 <= i < |items| ==> items[i].owner.Some? then
      Success(seq(|items|, i requires 0 <= i < |items| => ToStarredRepository(items[i]).value))
    else
      Failure(MissingOwner)
  }

  /** The query parameters: each supplied value, or its default. */
  function RequestParamsFor(params: FetchStarredParams): (q: RequestParams)
    ensures q.perPage == (if params.perPage.Some? then params.perPage.value else 50)
    ensures q.page == (if params.page.Some? then params.page.value else 1)
    ensures q.sort == (if params.sort.Some? then params.sort.value else Created)
    ensures q.direction == (if params.direction.Some? then params.direction.value else Desc)
  {
    RequestParams(params.perPage.GetOr(50), params.page.GetOr(1), params.sort.GetOr(Created), params.direction.GetOr(Desc))
  }

  /** With no parameters at all the request asks for page 1 of 50, newest stars first. */
  lemma DefaultRequestParams()
    ensures RequestParamsFor(FetchStarredParams(None, None, None, None, None)) == RequestParams(50, 1, Created, Desc)
    ensures forall p: FetchStarredParams, s: Option<string> :: RequestParamsFor(p.(since := s)) == RequestParamsFor(p)
  {
  }

  /** `fetchStarredRepositories`: `token` is the stored access token, if any;
      `github` performs the request and answers the body or the upstream
      error message. Without a token it fails before any request is built. */
  function FetchStarredRepositories(
    token: Option<string>, params: FetchStarredParams,
    github: StarredRequest -> Result<ResponseData, string>): (r: Result<seq<StarredRepository>, FetchError>)
    ensures token.None? <==> r == Failure(NoGithubToken)
    ensures token.Some? ==>
      var request := StarredRequest("/user/starred", RequestParamsFor(params), "Bearer " + token.value);
      match github(request)
      case Success(data) => r == DecodeResponse(data)
      case Failure(m) => r == Failure(GitHubApiError(m))
  {
    match token
    case None => Failure(NoGithubToken)
    case Some(t) =>
      var request := StarredRequest("/user/starred", RequestParamsFor(params), "Bearer " + t);
      match github(request)
      case Success(data) => DecodeResponse(data)
      case Failure(m) => Failure(GitHubApiError(m))
  }

  /** The parameters `fetchStarredWithSince` passes. */
  const SINCE_PARAMS := FetchStarredParams(None, Some(100), None, Some(Desc), Some(Created))

  predicate StarredBetween(r: StarredRepository, since: int, now: int) {
    r.starredAt.Some? && r.starredAt.value <= now && r.starredAt.value >= since
  }

  /** The filter of `fetchStarredWithSince`. */
  function StarredSince(repos: seq<StarredRepository>, since: int, now: int): (r: seq<StarredRepository>)
    ensures |r| <= |repos|
    ensures forall x :: x in r <==> x in repos && StarredBetween(x, since, now)
    ensures multiset(r) <= multiset(repos)
  {
    if repos == [] then []
    else
      var init := StarredSince(repos[..|repos| - 1], since, now);
      var last := repos[|repos| - 1];
      assert repos == repos[..|repos| - 1] + [last];
      if StarredBetween(last, since, now) then init + [last] else init
  }

  /** The filter keeps the survivors' relative order: it distributes over concatenation. */
  lemma {:induction false} StarredSinceKeepsOrder(a: seq<StarredRepository>, b: seq<StarredRepository>, since: int, now: int)
    ensures StarredSince(a + b, since, now) == StarredSince(a, since, now) + StarredSince(b, since, now)
    decreases |b|
  {
    if b == [] {
      assert a + b == a;
    } else {
      var b' := b[..|b| - 1];
      assert (a + b)[..|a + b| - 1] == a + b';
      StarredSinceKeepsOrder(a, b', since, now);
    }
  }

  /** `fetchStarredWithSince`: the repositories starred between `since` and `now`. */
  function FetchStarredWithSince(
    token: Option<string>, since: int, now: int,
    github: StarredRequest -> Result<ResponseData, string>): (r: Result<seq<StarredRepository>, FetchError>)
    ensures token.None? ==> r == Failure(NoGithubToken)
    ensures r.Success? <==> FetchStarredRepositories(token, SINCE_PARAMS, github).Success?
    ensures r.Success? ==> r.value == StarredSince(FetchStarredRepositories(token, SINCE_PARAMS, github).value, since, now)
    ensures r.Failure? ==> r.error == FetchStarredRepositories(token, SINCE_PARAMS, github).error
  {
    match FetchStarredRepositories(token, SINCE_PARAMS, github)
    case Success(repos) => Success(StarredSince(repos, since, now))
    case Failure(e) => Failure(e)
  }
}
