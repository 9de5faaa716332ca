/** The four highlight builders. Each picks at most three repositories from
    the eligible list, or gives no highlight at all. */
module Highlights {
  import opened Wrappers
  import opened GithubService
  import opened StarOrder
  import opened LanguageBuckets
  import opened DigestItems
  import Eligibility

  /** `DigestHighlight` */
  datatype DigestHighlight = DigestHighlight(id: string, title: string, tagline: string, items: seq<DigestRepoItem>)

  const FRESH_ID := "fresh-sparks"
  const THROWBACK_ID := "throwback-legends"
  const LANGUAGE_ID := "language-lounge"
  const SERENDIPITY_ID := "cosmic-serendipity"

  const FRESH_TAGLINE := "The newest stars you saved \U{2014} keep the excitement going while the glow is bright."
  const THROWBACK_TAGLINE := "Seasoned picks from your archive \U{2014} perfect for a weekend deep dive."
  const SERENDIPITY_TAGLINE := "A whimsical trio plucked from your constellation for pure maker joy."

  /** In a list sorted by `order`, nothing behind position `k` belongs strictly before anything ahead of it. */
  lemma SortedSplit(s: seq<StarredRepository>, k: nat, order: Order)
    requires IsSortedBy(s, order) && k <= |s|
    ensures IsSortedBy(s[..k], order)
    ensures forall x, p :: x in multiset(s[k..]) && p in s[..k] ==> !Precedes(x, p, order)
  {
    forall x, p | x in multiset(s[k..]) && p in s[..k] ensures !Precedes(x, p, order) {
      var j :| 0 <= j < |s[k..]| && s[k..][j] == x;
      var i :| 0 <= i < k && s[..k][i] == p;
      assert s[k + j] == x && s[i] == p;
    }
  }

  /** The first `Min(3, |s|)` of the sorted list: sorted, drawn from `s`, and
      nothing left behind belongs strictly before a pick. */
  lemma TopThreeOfSorted(s: seq<StarredRepository>, order: Order, picks: seq<StarredRepository>)
    requires picks == Take3(SortedByStarTime(s, order))
    ensures |picks| == Min(3, |s|)
    ensures IsSortedBy(picks, order)
    ensures multiset(picks) <= multiset(s)
    ensures forall x, p :: x in multiset(s) - multiset(picks) && p in picks ==> !Precedes(x, p, order)
  {
    var sorted := SortedByStarTime(s, order);
    SortedByStarTimeFacts(s, order);
    var k := Min(3, |s|);
    SortedSplit(sorted, k, order);
    assert sorted == sorted[..k] + sorted[k..];
    assert multiset(s) - multiset(sorted[..k]) == multiset(sorted[k..]);
  }

  // ----- Fresh Sparks -----

  /** `sortByStarredDate(repos, 'desc').slice(0, 3)` */
  function FreshPicks(repos: seq<StarredRepository>): seq<StarredRepository> {
    Take3(SortedByStarTime(repos, Descending))
  }

  /** The fresh picks are the newest stars: up to three, newest first, and
      no repository left out was starred later than a pick. */
  lemma FreshPicksFacts(repos: seq<StarredRepository>)
    ensures |FreshPicks(repos)| == Min(3, |repos|)
    ensures IsSortedBy(FreshPicks(repos), Descending)
    ensures multiset(FreshPicks(repos)) <= multiset(repos)
    ensures forall x, p :: x in multiset(repos) - multiset(FreshPicks(repos)) && p in FreshPicks(repos) ==>
      StarTime(x) <= StarTime(p)
  {
    var picks := FreshPicks(repos);
    TopThreeOfSorted(repos, Descending, picks);
    forall x, p | x in multiset(repos) - multiset(picks) && p in picks ensures StarTime(x) <= StarTime(p) {
      assert !Precedes(x, p, Descending);
    }
  }

  /** `createFreshHighlight` */
  function FreshHighlight(repos: seq<StarredRepository>, rnd: Randomness): (h: Option<DigestHighlight>)
    requires ValidRandomness(rnd)
    ensures h.None? <==> repos == []
    ensures h.Some? ==> (h.value.id == FRESH_ID && h.value.title == "Fresh Sparks"
      && h.value.tagline == FRESH_TAGLINE && h.value.items == ToItems(FreshPicks(repos), FreshGroup, rnd))
  {
    FreshPicksFacts(repos);
    var picks := FreshPicks(repos);
    if |picks| == 0 then None
    else Some(DigestHighlight(FRESH_ID, "Fresh Sparks", FRESH_TAGLINE, ToItems(picks, FreshGroup, rnd)))
  }

  /** `createFreshHighlight`, sorting a copy with the insertion sort. */
  method CreateFreshHighlight(repos: seq<StarredRepository>, rnd: Randomness) returns (h: Option<DigestHighlight>)
    requires ValidRandomness(rnd)
    ensures h == FreshHighlight(repos, rnd)
  {
    var sorted := SortByStarredDate(repos, Descending);
    var picks := Take3(sorted);
    if |picks| == 0 {
      h := None;
    } else {
      h := Some(DigestHighlight(FRESH_ID, "Fresh Sparks", FRESH_TAGLINE, ToItems(picks, FreshGroup, rnd)));
    }
  }

  // ----- Throwback Legends -----

  /** `Date.now() - 45 days` */
  function ThrowbackThreshold(now: int): int {
    now - 45 * Eligibility.DAY_MS
  }

  /** A throwback has a star time strictly before the threshold. */
  predicate IsThrowback(r: StarredRepository, now: int) {
    r.starredAt.Some? && r.starredAt.value < ThrowbackThreshold(now)
  }

  /** The filter of `createThrowbackHighlight`. */
  function Throwbacks(repos: seq<StarredRepository>, now: int): (r: seq<StarredRepository>)
    ensures |r| <= |repos|
    ensures multiset(r) <= multiset(repos)
    ensures forall x :: x in r <==> x in repos && IsThrowback(x, now)
  {
    if repos == [] then []
    else
      var init := Throwbacks(repos[..|repos| - 1], now);
      var last := repos[|repos| - 1];
      assert repos == repos[..|repos| - 1] + [last];
      if IsThrowback(last, now) then init + [last] else init
  }

  /** `sortByStarredDate(throwbacks, 'asc').slice(0, 3)` */
  function ThrowbackPicks(repos: seq<StarredRepository>, now: int): seq<StarredRepository> {
    Take3(SortedByStarTime(Throwbacks(repos, now), Ascending))
  }

  /** The throwback picks are the oldest qualifying stars, oldest first; there
      are none exactly when no repository was starred before the threshold. */
  lemma ThrowbackPicksFacts(repos: seq<StarredRepository>, now: int)
    ensures |ThrowbackPicks(repos, now)| <= 3
    ensures ThrowbackPicks(repos, now) == [] <==> forall x :: x in repos ==> !IsThrowback(x, now)
    ensures forall p :: p in ThrowbackPicks(repos, now) ==> p in repos && IsThrowback(p, now)
    ensures IsSortedBy(ThrowbackPicks(repos, now), Ascending)
    ensures multiset(ThrowbackPicks(repos, now)) <= multiset(repos)
    ensures forall x, p ::
      (x in multiset(Throwbacks(repos, now)) - multiset(ThrowbackPicks(repos, now)) && p in ThrowbackPicks(repos, now))
      ==> StarTime(p) <= StarTime(x)
  {
    var t := Throwbacks(repos, now);
    var picks := ThrowbackPicks(repos, now);
    TopThreeOfSorted(t, Ascending, picks);
    forall p | p in picks ensures p in t {
      assert p in multiset(picks);
    }
    forall x, p | x in multiset(t) - multiset(picks) && p in picks ensures StarTime(p) <= StarTime(x) {
      assert !Precedes(x, p, Ascending);
    }
    if t != [] {
      assert t[0] in repos;
    }
  }

  /** `createThrowbackHighlight` */
  function ThrowbackHighlight(repos: seq<StarredRepository>, now: int, rnd: Randomness): (h: Option<DigestHighlight>)
    requires ValidRandomness(rnd)
    ensures h.None? <==> forall x :: x in repos ==> !IsThrowback(x, now)
    ensures h.Some? ==> (h.value.id == THROWBACK_ID && h.value.title == "Throwback Legends"
      && h.value.tagline == THROWBACK_TAGLINE && h.value.items == ToItems(ThrowbackPicks(repos, now), ThrowbackGroup, rnd))
  {
    ThrowbackPicksFacts(repos, now);
    var throwbacks := ThrowbackPicks(repos, now);
    if |throwbacks| == 0 then None
    else Some(DigestHighlight(THROWBACK_ID, "Throwback Legends", THROWBACK_TAGLINE, ToItems(throwbacks, ThrowbackGroup, rnd)))
  }

  /** `createThrowbackHighlight`, sorting a copy with the insertion sort. */
  method CreateThrowbackHighlight(repos: seq<StarredRepository>, now: int, rnd: Randomness) returns (h: Option<DigestHighlight>)
    requires ValidRandomness(rnd)
    ensures h == ThrowbackHighlight(repos, now, rnd)
  {
    var sorted := SortByStarredDate(Throwbacks(repos, now), Ascending);
    var throwbacks := Take3(sorted);
    if |throwbacks| == 0 {
      h := None;
    } else {
      h := Some(DigestHighlight(THROWBACK_ID, "Throwback Legends", THROWBACK_TAGLINE, ToItems(throwbacks, ThrowbackGroup, rnd)));
    }
  }

  // ----- Language Lounge -----

  /** The bucket the highlight shows: the top language, unless it is the
      empty string, which `!topLanguage` rejects. */
  function LoungeLanguage(repos: seq<StarredRepository>): Option<string> {
    var top := TopLanguage(repos);
    if top.None? || top.value == "" then None else top
  }

  /** `libraries.slice(0, 3)` */
  function LanguagePicks(repos: seq<StarredRepository>, language: string): seq<StarredRepository> {
    Take3(Members(repos, language))
  }

  function LanguageTagline(language: string): string {
    "Your " + language + " stack is humming \U{2014} here are a few riffs worth playing."
  }

  /** The lounge shows two or three members of a largest bucket, in list
      order; there is none when every bucket has at most one member or the
      top bucket's key is empty. */
  lemma LanguagePicksFacts(repos: seq<StarredRepository>)
    ensures LoungeLanguage(repos).None? <==>
      (forall k :: Size(repos, k) <= 1) || TopLanguage(repos) == Some("")
    ensures LoungeLanguage(repos).Some? ==>
      var language := LoungeLanguage(repos).value;
      var picks := LanguagePicks(repos, language);
      && language != ""
      && (forall k :: Size(repos, k) <= Size(repos, language))
      && 2 <= |picks| <= 3
      && picks == Members(repos, language)[..|picks|]
      && forall p :: p in picks ==> p in repos && LanguageKey(p) == language
  {
    if LoungeLanguage(repos).Some? {
      var language := LoungeLanguage(repos).value;
      var picks := LanguagePicks(repos, language);
      MembersOfKey(repos, language);
      forall p | p in picks ensures p in Members(repos, language) {
        assert p in multiset(picks);
      }
    }
  }

  /** `createLanguageHighlight` */
  function LanguageHighlight(repos: seq<StarredRepository>, rnd: Randomness): (h: Option<DigestHighlight>)
    requires ValidRandomness(rnd)
    ensures h.None? <==> LoungeLanguage(repos).None?
    ensures h.Some? ==>
      var language := LoungeLanguage(repos).value;
      && h.value.id == LANGUAGE_ID && h.value.title == language + " Lounge"
      && h.value.tagline == LanguageTagline(language)
      && h.value.items == ToItems(LanguagePicks(repos, language), LanguageGroup, rnd)
  {
    match LoungeLanguage(repos)
    case None => None
    case Some(language) =>
      Some(DigestHighlight(LANGUAGE_ID, language + " Lounge", LanguageTagline(language),
        ToItems(LanguagePicks(repos, language), LanguageGroup, rnd)))
  }

  /** The bucket sizes read off the grouping loop's result are the sizes of the buckets. */
  lemma GroupSizes(
    repos: seq<StarredRepository>, order: seq<string>, groups: map<string, seq<StarredRepository>>, sizes: seq<nat>)
    requires order == LanguageOrder(repos)
    requires forall k :: k in groups ==> groups[k] == Members(repos, k)
    requires |sizes| == |order|
    requires forall i :: 0 <= i < |order| ==> order[i] in groups && sizes[i] == |groups[order[i]]|
    ensures sizes == Sizes(LanguageOrder(repos), repos)
  {
  }

  /** The top bucket of the grouping loop's `Object.entries(...).filter(...).sort(...)[0]`. */
  method TopBucket(repos: seq<StarredRepository>) returns (top: Option<string>, libraries: seq<StarredRepository>)
    ensures top == TopLanguage(repos)
    ensures top.Some? ==> libraries == Members(repos, top.value)
  {
    var order, groups := GroupByLanguage(repos);
    var sizes := seq(|order|, i requires 0 <= i < |order| => |groups[order[i]]|);
    GroupSizes(repos, order, groups, sizes);
    var best := FirstLargest(sizes);
    assert best == LargestBucket(repos);
    if best.None? {
      top, libraries := None, [];
    } else {
      top, libraries := Some(order[best.value]), groups[order[best.value]];
    }
  }

  /** `createLanguageHighlight`, building the buckets with the `reduce` loop. */
  method CreateLanguageHighlight(repos: seq<StarredRepository>, rnd: Randomness) returns (h: Option<DigestHighlight>)
    requires ValidRandomness(rnd)
    ensures h == LanguageHighlight(repos, rnd)
  {
    var top, libraries := TopBucket(repos);
    if top.None? || top.value == "" {
      h := None;
    } else {
      var language := top.value;
      h := Some(DigestHighlight(LANGUAGE_ID, language + " Lounge", LanguageTagline(language),
        ToItems(Take3(libraries), LanguageGroup, rnd)));
    }
  }

  // ----- Cosmic Serendipity -----

  /** `[...repos].sort(() => Math.random() - 0.5).slice(0, 3)` */
  function SerendipityPicks(repos: seq<StarredRepository>, rnd: Randomness): seq<StarredRepository> {
    Take3(rnd.shuffle(repos))
  }

  /** Up to three repositories of the list, each at most as often as it occurs there. */
  lemma SerendipityPicksFacts(repos: seq<StarredRepository>, rnd: Randomness)
    requires ValidRandomness(rnd)
    ensures |SerendipityPicks(repos, rnd)| == Min(3, |repos|)
    ensures multiset(SerendipityPicks(repos, rnd)) <= multiset(repos)
    ensures forall p :: p in SerendipityPicks(repos, rnd) ==> p in repos
  {
    var shuffled := rnd.shuffle(repos);
    assert multiset(shuffled) == multiset(repos);
    assert |shuffled| == |multiset(shuffled)| == |repos|;
    forall p | p in SerendipityPicks(repos, rnd) ensures p in repos {
      assert p in multiset(SerendipityPicks(repos, rnd));
    }
  }

  /** `createSerendipityHighlight` */
  function SerendipityHighlight(repos: seq<StarredRepository>, rnd: Randomness): (h: Option<DigestHighlight>)
    requires ValidRandomness(rnd)
    ensures h.None? <==> repos == []
    ensures h.Some? ==> (h.value.id == SERENDIPITY_ID && h.value.title == "Cosmic Serendipity"
      && h.value.tagline == SERENDIPITY_TAGLINE
      && h.value.items == ToItems(SerendipityPicks(repos, rnd), SerendipityGroup, rnd))
  {
    SerendipityPicksFacts(repos, rnd);
    if |repos| == 0 then None
    else Some(DigestHighlight(SERENDIPITY_ID, "Cosmic Serendipity", SERENDIPITY_TAGLINE,
      ToItems(SerendipityPicks(repos, rnd), SerendipityGroup, rnd)))
  }
}
