/** The items a digest shows: a starred repository reduced to what the mail
    needs, with a "vibe" line drawn from its highlight's pool. */
module DigestItems {
  import opened Wrappers
  import opened Text
  import opened GithubService

  /** The four keys of the vibe library, one per highlight. */
  datatype VibeGroup = FreshGroup | ThrowbackGroup | LanguageGroup | SerendipityGroup

  /** The vibe library: three lines per group. */
  function VibePool(g: VibeGroup): (pool: seq<string>)
    ensures |pool| == 3
  {
    match g
    case FreshGroup => [
      "You just lit this spark \U{2014} keep that momentum glowing! \U{2728}",
      "Still warm from your curiosity furnace.",
      "Brand-new inspiration, ready for first light."]
    case ThrowbackGroup => [
      "A legendary idea waiting for its encore.",
      "Vintage brilliance you handpicked.",
      "Like vinyl for devs \U{2014} still groovy, always relevant."]
    case LanguageGroup => [
      "Your favorite syntax is calling.",
      "Dialed-in to the language you love.",
      "A familiar toolkit with fresh adventure."]
    case SerendipityGroup => [
      "A whimsical detour from your star map.",
      "Unexpected delight from the cosmos.",
      "A wild card gem to tinker with tonight."]
  }

  /** The random choices of one digest. `vibeRoll(g, i)` is the value of
      `Math.floor(Math.random() * 3)` drawn for the `i`-th item of group `g`;
      `shuffle` is the order the random comparator left the list in. */
  datatype Randomness = Randomness(
    shuffle: seq<StarredRepository> -> seq<StarredRepository>,
    vibeRoll: (VibeGroup, nat) -> nat)

  /** What the draws can yield: an index into a three-line pool, and a
      rearrangement of the list that was sorted. */
  ghost predicate ValidRandomness(rnd: Randomness) {
    && (forall g, i :: rnd.vibeRoll(g, i) < 3)
    && (forall s :: multiset(rnd.shuffle(s)) == multiset(s))
  }

  /** `pickVibe`: the pool entry at the rolled index. */
  function PickVibe(g: VibeGroup, roll: nat): (v: string)
    requires roll < 3
    ensures v in VibePool(g)
  {
    VibePool(g)[roll]
  }

  /** Every line of the pool is reachable by some roll. */
  lemma EveryVibeReachable(g: VibeGroup, v: string)
    requires v in VibePool(g)
    ensures exists roll: nat :: roll < 3 && PickVibe(g, roll) == v
  {
    var pool := VibePool(g);
    var roll :| 0 <= roll < 3 && pool[roll] == v;
    assert PickVibe(g, roll) == v;
  }

  /** `fullName.split('/')[1] ?? fullName` */
  function RepoName(fullName: string): string {
    var parts := Split(fullName, '/');
    if |parts| >= 2 then parts[1] else fullName
  }

  /** A name without a slash is its own short name. */
  lemma RepoNameWithoutSlash(fullName: string)
    requires '/' !in fullName
    ensures RepoName(fullName) == fullName
  {
    SplitNoSeparator(fullName, '/');
  }

  /** `owner/repo` has short name `repo`. */
  lemma RepoNameOfPath(owner: string, repo: string)
    requires '/' !in owner && '/' !in repo
    ensures RepoName(owner + "/" + repo) == repo
  {
    SplitAtSeparator(owner, repo, '/');
    SplitNoSeparator(owner, '/');
    SplitNoSeparator(repo, '/');
  }

  /** `DigestRepoItem`; `starredAt` is the star time in milliseconds. */
  datatype DigestRepoItem = DigestRepoItem(
    id: int, name: string, fullName: string, htmlUrl: string,
    description: Option<string>, language: Option<string>, stargazers: int,
    topics: seq<string>, starredAt: Option<int>, owner: Owner, vibe: string)

  /** `item` shows `repo`: every field carried over, the short name derived. */
  predicate IsItemOf(item: DigestRepoItem, repo: StarredRepository) {
    && item.id == repo.id && item.name == RepoName(repo.fullName)
    && item.fullName == repo.fullName && item.htmlUrl == repo.htmlUrl
    && item.description == repo.description && item.language == repo.language
    && item.stargazers == repo.stargazersCount && item.topics == repo.topics
    && item.starredAt == repo.starredAt && item.owner == repo.owner
  }

  /** `toDigestRepo` */
  function ToDigestRepo(repo: StarredRepository, g: VibeGroup, roll: nat): (item: DigestRepoItem)
    requires roll < 3
    ensures IsItemOf(item, repo) && item.vibe in VibePool(g)
  {
    DigestRepoItem(
      repo.id, RepoName(repo.fullName), repo.fullName, repo.htmlUrl, repo.description,
      repo.language, repo.stargazersCount, repo.topics, repo.starredAt,
      Owner(repo.owner.login, repo.owner.avatarUrl, repo.owner.htmlUrl),
      PickVibe(g, roll))
  }

  /** `picks.map((repo) => toDigestRepo(repo, g))`, the `i`-th item taking the `i`-th roll. */
  function ToItems(picks: seq<StarredRepository>, g: VibeGroup, rnd: Randomness): (items: seq<DigestRepoItem>)
    requires ValidRandomness(rnd)
    ensures |items| == |picks|
    ensures forall i :: 0 <= i < |items| ==> IsItemOf(items[i], picks[i]) && items[i].vibe in VibePool(g)
  {
    seq(|picks|, i requires 0 <= i < |picks| => ToDigestRepo(picks[i], g, rnd.vibeRoll(g, i)))
  }

  function Min(a: int, b: int): int {
    if a <= b then a else b
  }

  /** `slice(0, 3)` */
  function Take3<T>(s: seq<T>): (r: seq<T>)
    ensures |r| == Min(3, |s|)
    ensures r == s[..|r|]
    ensures multiset(r) <= multiset(s)
  {
    var n := Min(3, |s|);
    assert s == s[..n] + s[n..];
    s[..n]
  }
}
