/** `generateReminderDigest`: fetch, window, filter, then the four highlights
    in a fixed order with the empty ones dropped. */
module Digest {
  import opened Wrappers
  import opened GithubService
  import opened UserFilters
  import opened Accounts
  import opened Eligibility
  import opened DigestItems
  import opened Highlights
  import opened LanguageBuckets

  /** `ReminderDigest` */
  datatype ReminderDigest = ReminderDigest(title: string, intro: string, highlights: seq<DigestHighlight>)

  const DIGEST_TITLE := "Star Spark Digest"

  /** The parameters the digest fetches with: one page of 100. */
  const DIGEST_FETCH_PARAMS := FetchStarredParams(None, Some(100), None, None, None)

  function Intro(username: string): string {
    "Hey " + username + ", here are a few stars ready to leap from your saved galaxy into your next build."
  }

  /** `.filter(Boolean)` over the candidate highlights. */
  function Present(hs: seq<Option<DigestHighlight>>): (r: seq<DigestHighlight>)
    ensures |r| <= |hs|
  {
    if hs == [] then [] else Listed(hs[0]) + Present(hs[1..])
  }

  /** `filter(Boolean)` keeps exactly the highlights that are there. */
  lemma {:induction false} PresentMembers(hs: seq<Option<DigestHighlight>>)
    ensures forall h :: h in Present(hs) <==> Some(h) in hs
  {
    if hs != [] {
      PresentMembers(hs[1..]);
      assert hs == [hs[0]] + hs[1..];
    }
  }

  /** The position of a highlight in the fixed order fresh, throwback, language, serendipity. */
  function Rank(h: DigestHighlight): nat {
    if h.id == FRESH_ID then 0
    else if h.id == THROWBACK_ID then 1
    else if h.id == LANGUAGE_ID then 2
    else 3
  }

  /** The vibe group each highlight draws its lines from. */
  function GroupOf(h: DigestHighlight): VibeGroup {
    if h.id == FRESH_ID then FreshGroup
    else if h.id == THROWBACK_ID then ThrowbackGroup
    else if h.id == LANGUAGE_ID then LanguageGroup
    else SerendipityGroup
  }

  ghost predicate RankedAscending(hs: seq<Option<DigestHighlight>>) {
    forall i, j :: 0 <= i < j < |hs| && hs[i].Some? && hs[j].Some? ==> Rank(hs[i].value) < Rank(hs[j].value)
  }

  /** Dropping the empty candidates keeps the others in their order. */
  lemma {:induction false} PresentKeepsOrder(hs: seq<Option<DigestHighlight>>)
    requires RankedAscending(hs)
    ensures forall i, j :: 0 <= i < j < |Present(hs)| ==> Rank(Present(hs)[i]) < Rank(Present(hs)[j])
  {
    if hs != [] {
      var tail := hs[1..];
      assert RankedAscending(tail) by {
        forall i, j | 0 <= i < j < |tail| && tail[i].Some? && tail[j].Some?
          ensures Rank(tail[i].value) < Rank(tail[j].value)
        {
          assert tail[i] == hs[i + 1] && tail[j] == hs[j + 1];
        }
      }
      PresentKeepsOrder(tail);
      if hs[0].Some? {
        var r := Present(hs);
        assert r == [hs[0].value] + Present(tail);
        PresentMembers(tail);
        forall j | 1 <= j < |r| ensures Rank(r[0]) < Rank(r[j]) {
          assert r[j] in Present(tail);
          assert Some(r[j]) in tail;
          var k :| 0 <= k < |tail| && tail[k] == Some(r[j]);
          assert hs[k + 1] == Some(r[j]);
        }
      }
    }
  }

  /** The candidate highlights of the eligible list, in their fixed order. */
  function Candidates(eligible: seq<StarredRepository>, now: int, rnd: Randomness): seq<Option<DigestHighlight>>
    requires ValidRandomness(rnd)
  {
    [FreshHighlight(eligible, rnd), ThrowbackHighlight(eligible, now, rnd),
     LanguageHighlight(eligible, rnd), SerendipityHighlight(eligible, rnd)]
  }

  /** The digest built from an already eligible list. */
  function BuildDigest(username: string, eligible: seq<StarredRepository>, now: int, rnd: Randomness): ReminderDigest
    requires ValidRandomness(rnd)
  {
    ReminderDigest(DIGEST_TITLE, Intro(username), Present(Candidates(eligible, now, rnd)))
  }

  function Listed(o: Option<DigestHighlight>): seq<DigestHighlight> {
    if o.Some? then [o.value] else []
  }

  lemma PresentCons(o: Option<DigestHighlight>, rest: seq<Option<DigestHighlight>>)
    ensures Present([o] + rest) == Listed(o) + Present(rest)
  {
    assert ([o] + rest)[1..] == rest;
  }

  lemma PresentOne(d: Option<DigestHighlight>)
    ensures Present([d]) == Listed(d)
  {
    PresentCons(d, []);
    assert [d] + [] == [d];
  }

  lemma PresentTwo(c: Option<DigestHighlight>, d: Option<DigestHighlight>)
    ensures Present([c, d]) == Listed(c) + Listed(d)
  {
    PresentCons(c, [d]);
    assert [c] + [d] == [c, d];
    PresentOne(d);
  }

  lemma PresentThree(b: Option<DigestHighlight>, c: Option<DigestHighlight>, d: Option<DigestHighlight>)
    ensures Present([b, c, d]) == Listed(b) + Listed(c) + Listed(d)
  {
    PresentCons(b, [c, d]);
    assert [b] + [c, d] == [b, c, d];
    PresentTwo(c, d);
    assert Listed(b) + (Listed(c) + Listed(d)) == Listed(b) + Listed(c) + Listed(d);
  }

  /** `.filter(Boolean)` over four candidates, spelled out. */
  lemma PresentFour(a: Option<DigestHighlight>, b: Option<DigestHighlight>, c: Option<DigestHighlight>, d: Option<DigestHighlight>)
    ensures Present([a, b, c, d]) == Listed(a) + Listed(b) + Listed(c) + Listed(d)
  {
    PresentCons(a, [b, c, d]);
    assert [a] + [b, c, d] == [a, b, c, d];
    PresentThree(b, c, d);
    assert Listed(a) + (Listed(b) + Listed(c) + Listed(d)) == Listed(a) + Listed(b) + Listed(c) + Listed(d);
  }

  /** With nothing eligible no builder yields a highlight. */
  lemma NothingEligibleNoCandidates(now: int, rnd: Randomness)
    requires ValidRandomness(rnd)
    ensures FreshHighlight([], rnd).None? && ThrowbackHighlight([], now, rnd).None?
    ensures LanguageHighlight([], rnd).None? && SerendipityHighlight([], rnd).None?
  {
    assert forall k :: Size([], k) == 0;
  }

  /** The digest has no highlight exactly when nothing is eligible; otherwise
      it opens with Fresh Sparks and ends with Cosmic Serendipity. */
  lemma EmptyDigestIffNothingEligible(username: string, eligible: seq<StarredRepository>, now: int, rnd: Randomness)
    requires ValidRandomness(rnd)
    ensures var hs := BuildDigest(username, eligible, now, rnd).highlights;
      && (hs == [] <==> eligible == [])
      && (eligible != [] ==> hs[0].id == FRESH_ID && hs[|hs| - 1].id == SERENDIPITY_ID)
  {
    var f, t, l, z := FreshHighlight(eligible, rnd), ThrowbackHighlight(eligible, now, rnd),
      LanguageHighlight(eligible, rnd), SerendipityHighlight(eligible, rnd);
    PresentFour(f, t, l, z);
    if eligible == [] {
      NothingEligibleNoCandidates(now, rnd);
    }
  }

  /** Each builder's highlight carries the rank of its place in the list. */
  lemma CandidateRanks(eligible: seq<StarredRepository>, now: int, rnd: Randomness)
    requires ValidRandomness(rnd)
    ensures FreshHighlight(eligible, rnd).Some? ==> Rank(FreshHighlight(eligible, rnd).value) == 0
    ensures ThrowbackHighlight(eligible, now, rnd).Some? ==> Rank(ThrowbackHighlight(eligible, now, rnd).value) == 1
    ensures LanguageHighlight(eligible, rnd).Some? ==> Rank(LanguageHighlight(eligible, rnd).value) == 2
    ensures SerendipityHighlight(eligible, rnd).Some? ==> Rank(SerendipityHighlight(eligible, rnd).value) == 3
  {
  }

  lemma RankedFour(a: Option<DigestHighlight>, b: Option<DigestHighlight>, c: Option<DigestHighlight>, d: Option<DigestHighlight>)
    requires a.Some? ==> Rank(a.value) == 0
    requires b.Some? ==> Rank(b.value) == 1
    requires c.Some? ==> Rank(c.value) == 2
    requires d.Some? ==> Rank(d.value) == 3
    ensures RankedAscending([a, b, c, d])
  {
  }

  /** The candidates are ranked in their list order. */
  lemma RankedCandidates(eligible: seq<StarredRepository>, now: int, rnd: Randomness)
    requires ValidRandomness(rnd)
    ensures RankedAscending(Candidates(eligible, now, rnd))
  {
    CandidateRanks(eligible, now, rnd);
    RankedFour(FreshHighlight(eligible, rnd), ThrowbackHighlight(eligible, now, rnd),
      LanguageHighlight(eligible, rnd), SerendipityHighlight(eligible, rnd));
  }

  /** The highlights come in the order fresh, throwback, language, serendipity. */
  lemma DigestOrder(username: string, eligible: seq<StarredRepository>, now: int, rnd: Randomness)
    requires ValidRandomness(rnd)
    ensures var hs := BuildDigest(username, eligible, now, rnd).highlights;
      forall i, j :: 0 <= i < j < |hs| ==> Rank(hs[i]) < Rank(hs[j])
  {
    RankedCandidates(eligible, now, rnd);
    PresentKeepsOrder(Candidates(eligible, now, rnd));
  }

  /** A highlight as the digest shows it: one to three items, each showing a
      repository of the eligible list with a line from its group's pool. */
  ghost predicate WellFormed(h: DigestHighlight, eligible: seq<StarredRepository>) {
    && 1 <= |h.items| <= 3
    && forall item :: item in h.items ==>
      item.vibe in VibePool(GroupOf(h)) && exists r :: r in eligible && IsItemOf(item, r)
  }

  lemma ItemsShowPicks(picks: seq<StarredRepository>, g: VibeGroup, rnd: Randomness, eligible: seq<StarredRepository>)
    requires ValidRandomness(rnd)
    requires forall p :: p in picks ==> p in eligible
    ensures forall item :: item in ToItems(picks, g, rnd) ==>
      item.vibe in VibePool(g) && exists r :: r in eligible && IsItemOf(item, r)
  {
    var items := ToItems(picks, g, rnd);
    forall item | item in items ensures item.vibe in VibePool(g) && exists r :: r in eligible && IsItemOf(item, r) {
      var i :| 0 <= i < |items| && items[i] == item;
      assert IsItemOf(item, picks[i]) && picks[i] in eligible;
    }
  }

  lemma FreshWellFormed(eligible: seq<StarredRepository>, rnd: Randomness)
    requires ValidRandomness(rnd)
    ensures FreshHighlight(eligible, rnd).Some? ==> WellFormed(FreshHighlight(eligible, rnd).value, eligible)
  {
    var picks := FreshPicks(eligible);
    FreshPicksFacts(eligible);
    forall p | p in picks ensures p in eligible {
      assert p in multiset(picks);
    }
    ItemsShowPicks(picks, FreshGroup, rnd, eligible);
  }

  lemma ThrowbackWellFormed(eligible: seq<StarredRepository>, now: int, rnd: Randomness)
    requires ValidRandomness(rnd)
    ensures ThrowbackHighlight(eligible, now, rnd).Some? ==> WellFormed(ThrowbackHighlight(eligible, now, rnd).value, eligible)
  {
    ThrowbackPicksFacts(eligible, now);
    ItemsShowPicks(ThrowbackPicks(eligible, now), ThrowbackGroup, rnd, eligible);
  }

  lemma LanguageWellFormed(eligible: seq<StarredRepository>, rnd: Randomness)
    requires ValidRandomness(rnd)
    ensures LanguageHighlight(eligible, rnd).Some? ==> WellFormed(LanguageHighlight(eligible, rnd).value, eligible)
  {
    LanguagePicksFacts(eligible);
    if LoungeLanguage(eligible).Some? {
      ItemsShowPicks(LanguagePicks(eligible, LoungeLanguage(eligible).value), LanguageGroup, rnd, eligible);
    }
  }

  lemma SerendipityWellFormed(eligible: seq<StarredRepository>, rnd: Randomness)
    requires ValidRandomness(rnd)
    ensures SerendipityHighlight(eligible, rnd).Some? ==> WellFormed(SerendipityHighlight(eligible, rnd).value, eligible)
  {
    SerendipityPicksFacts(eligible, rnd);
    ItemsShowPicks(SerendipityPicks(eligible, rnd), SerendipityGroup, rnd, eligible);
  }

  /** What `.filter(Boolean)` keeps of four well-formed candidates is well-formed. */
  lemma PresentWellFormed(a: Option<DigestHighlight>, b: Option<DigestHighlight>, c: Option<DigestHighlight>, d: Option<DigestHighlight>,
    eligible: seq<StarredRepository>)
    requires a.Some? ==> WellFormed(a.value, eligible)
    requires b.Some? ==> WellFormed(b.value, eligible)
    requires c.Some? ==> WellFormed(c.value, eligible)
    requires d.Some? ==> WellFormed(d.value, eligible)
    ensures forall h :: h in Present([a, b, c, d]) ==> WellFormed(h, eligible)
  {
    PresentMembers([a, b, c, d]);
  }

  /** Every highlight of the digest holds one to three items drawn from the
      eligible list, each with a vibe from its own group's pool. */
  lemma DigestItemsFromEligible(username: string, eligible: seq<StarredRepository>, now: int, rnd: Randomness)
    requires ValidRandomness(rnd)
    ensures forall h :: h in BuildDigest(username, eligible, now, rnd).highlights ==> WellFormed(h, eligible)
  {
    FreshWellFormed(eligible, rnd);
    ThrowbackWellFormed(eligible, now, rnd);
    LanguageWellFormed(eligible, rnd);
    SerendipityWellFormed(eligible, rnd);
    PresentWellFormed(FreshHighlight(eligible, rnd), ThrowbackHighlight(eligible, now, rnd),
      LanguageHighlight(eligible, rnd), SerendipityHighlight(eligible, rnd), eligible);
  }

  /** `digest.highlights.flatMap((highlight) => highlight.items)` */
  function AllItems(hs: seq<DigestHighlight>): (items: seq<DigestRepoItem>)
    ensures forall item :: item in items <==> exists h :: h in hs && item in h.items
  {
    if hs == [] then []
    else
      assert forall h :: h in hs <==> h == hs[0] || h in hs[1..];
      hs[0].items + AllItems(hs[1..])
  }

  /** `generateReminderDigest`: `token` is the stored token of `user`, `now`
      the clock reading and `windowDays` the configured window. */
  function ReminderDigestFor(
    user: User, token: Option<string>, github: StarredRequest -> Result<ResponseData, string>,
    now: int, windowDays: int, rnd: Randomness): (r: Result<ReminderDigest, FetchError>)
    requires ValidRandomness(rnd)
    ensures r.Failure? <==> FetchStarredRepositories(token, DIGEST_FETCH_PARAMS, github).Failure?
    ensures token.None? ==> r == Failure(NoGithubToken)
    ensures r.Success? ==> r.value.title == DIGEST_TITLE && r.value.intro == Intro(user.username)
  {
    match FetchStarredRepositories(token, DIGEST_FETCH_PARAMS, github)
    case Failure(e) => Failure(e)
    case Success(starred) =>
      Success(BuildDigest(user.username, EligibleRepos(starred, user.filters, now, windowDays), now, rnd))
  }

  /** The digest asks for 100 stars per page and otherwise uses the defaults. */
  lemma DigestRequest()
    ensures RequestParamsFor(DIGEST_FETCH_PARAMS) == RequestParams(100, 1, Created, Desc)
  {
  }

  /** `generateReminderDigest`, running the sorting and grouping loops. */
  method GenerateReminderDigest(
    user: User, token: Option<string>, github: StarredRequest -> Result<ResponseData, string>,
    now: int, windowDays: int, rnd: Randomness) returns (r: Result<ReminderDigest, FetchError>)
    requires ValidRandomness(rnd)
    ensures r == ReminderDigestFor(user, token, github, now, windowDays, rnd)
  {
    var fetched := FetchStarredRepositories(token, DIGEST_FETCH_PARAMS, github);
    if fetched.Failure? {
      return Failure(fetched.error);
    }
    var eligible := EligibleRepos(fetched.value, user.filters, now, windowDays);
    var freshSparks := CreateFreshHighlight(eligible, rnd);
    var throwback := CreateThrowbackHighlight(eligible, now, rnd);
    var language := CreateLanguageHighlight(eligible, rnd);
    var serendipity := SerendipityHighlight(eligible, rnd);
    var highlights := Present([freshSparks, throwback, language, serendipity]);
    r := Success(ReminderDigest(DIGEST_TITLE, Intro(user.username), highlights));
  }
}
