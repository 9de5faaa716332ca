/** The eligibility filter: the star-date window and `applyFilters`. */
module Eligibility {
  import opened Wrappers
  import opened Text
  import opened GithubService
  import opened UserFilters

  const DAY_MS: int := 24 * 60 * 60 * 1000

  /** `REMINDER_WINDOW_DAYS` when the environment does not set it. */
  const DEFAULT_REMINDER_WINDOW_DAYS: int := 90

  /** The language rule: a truthy repository language must be in a non-empty allow-list. */
  predicate LanguageAllowed(repo: StarredRepository, f: Filters) {
    !(f.languages.Some? && |f.languages.value| > 0
      && repo.language.Some? && repo.language.value != ""
      && ToLower(repo.language.value) !in LowerAll(f.languages.value))
  }

  /** The topic rule: a non-empty allow-list needs one topic in common. */
  predicate TopicsAllowed(repo: StarredRepository, f: Filters) {
    || !(f.topics.Some? && |f.topics.value| > 0)
    || exists t :: t in LowerAll(f.topics.value) && t in LowerAll(repo.topics)
  }

  /** The star rule: a truthy (non-zero) minimum drops repositories below it. */
  predicate StarsAllowed(repo: StarredRepository, f: Filters) {
    !(f.minimumStars.Some? && f.minimumStars.value != 0 && repo.stargazersCount < f.minimumStars.value)
  }

  /** The archive rule: archived repositories only when `includeArchived` is true. */
  predicate ArchiveAllowed(repo: StarredRepository, f: Filters) {
    f.includeArchived == Some(true) || repo.archived != Some(true)
  }

  predicate PassesFilters(repo: StarredRepository, f: Filters) {
    LanguageAllowed(repo, f) && TopicsAllowed(repo, f) && StarsAllowed(repo, f) && ArchiveAllowed(repo, f)
  }

  /** `applyFilters`; a null filter column counts as the empty object. */
  function ApplyFilters(repos: seq<StarredRepository>, filters: Option<Filters>): (r: seq<StarredRepository>)
    ensures |r| <= |repos|
  {
    if repos == [] then []
    else
      var init := ApplyFilters(repos[..|repos| - 1], filters);
      var last := repos[|repos| - 1];
      if PassesFilters(last, filters.GetOr(NoFilters)) then init + [last] else init
  }

  /** The filter keeps exactly the repositories that pass, and adds or
      duplicates none. */
  lemma {:induction false} ApplyFiltersMembers(repos: seq<StarredRepository>, filters: Option<Filters>)
    ensures multiset(ApplyFilters(repos, filters)) <= multiset(repos)
    ensures forall x :: x in ApplyFilters(repos, filters) <==> x in repos && PassesFilters(x, filters.GetOr(NoFilters))
  {
    if repos != [] {
      var init := repos[..|repos| - 1];
      ApplyFiltersMembers(init, filters);
      assert repos == init + [repos[|repos| - 1]];
    }
  }

  /** The filter keeps the survivors' relative order: it distributes over concatenation. */
  lemma {:induction false} ApplyFiltersKeepsOrder(a: seq<StarredRepository>, b: seq<StarredRepository>, filters: Option<Filters>)
    ensures ApplyFilters(a + b, filters) == ApplyFilters(a, filters) + ApplyFilters(b, filters)
    decreases |b|
  {
    if b == [] {
      assert a + b == a;
    } else {
      var b' := b[..|b| - 1];
      assert (a + b)[..|a + b| - 1] == a + b';
      ApplyFiltersKeepsOrder(a, b', filters);
    }
  }

  /** A list whose every repository passes is left as it is. */
  lemma {:induction false} ApplyFiltersKeepsPassing(repos: seq<StarredRepository>, filters: Option<Filters>)
    requires forall x :: x in repos ==> PassesFilters(x, filters.GetOr(NoFilters))
    ensures ApplyFilters(repos, filters) == repos
  {
    if repos != [] {
      var init := repos[..|repos| - 1];
      assert repos == init + [repos[|repos| - 1]];
      assert forall x :: x in init ==> x in repos;
      ApplyFiltersKeepsPassing(init, filters);
    }
  }

  /** Filtering twice is filtering once. */
  lemma ApplyFiltersIdempotent(repos: seq<StarredRepository>, filters: Option<Filters>)
    ensures ApplyFilters(ApplyFilters(repos, filters), filters) == ApplyFilters(repos, filters)
  {
    ApplyFiltersMembers(repos, filters);
    ApplyFiltersKeepsPassing(ApplyFilters(repos, filters), filters);
  }

  /** A repository with a non-empty language is dropped by the language rule
      exactly when the allow-list is non-empty and holds no case-insensitive
      match; a repository without a language always passes it. */
  lemma LanguageRule(repo: StarredRepository, f: Filters)
    ensures repo.language.None? || repo.language == Some("") ==> LanguageAllowed(repo, f)
    ensures repo.language.Some? && repo.language.value != "" ==>
      (!LanguageAllowed(repo, f) <==>
        f.languages.Some? && f.languages.value != [] &&
        forall l :: l in f.languages.value ==> !EqualsIgnoreCase(l, repo.language.value))
  {
    if repo.language.Some? && f.languages.Some? {
      LowerAllContains(f.languages.value, repo.language.value);
    }
  }

  /** With a non-empty topic allow-list a repository passes the topic rule
      exactly when one of its topics matches a listed one, ignoring case. */
  lemma TopicRule(repo: StarredRepository, f: Filters)
    ensures f.topics.None? || f.topics == Some([]) ==> TopicsAllowed(repo, f)
    ensures f.topics.Some? && f.topics.value != [] ==>
      (TopicsAllowed(repo, f) <==>
        exists t, u :: t in f.topics.value && u in repo.topics && EqualsIgnoreCase(t, u))
  {
    if f.topics.Some? && f.topics.value != [] {
      var lt, lr := LowerAll(f.topics.value), LowerAll(repo.topics);
      if exists w :: w in lt && w in lr {
        var w :| w in lt && w in lr;
        var i :| 0 <= i < |lt| && lt[i] == w;
        var k :| 0 <= k < |lr| && lr[k] == w;
        assert f.topics.value[i] in f.topics.value && repo.topics[k] in repo.topics;
        assert EqualsIgnoreCase(f.topics.value[i], repo.topics[k]);
      }
      if exists t, u :: t in f.topics.value && u in repo.topics && EqualsIgnoreCase(t, u) {
        var t, u :| t in f.topics.value && u in repo.topics && EqualsIgnoreCase(t, u);
        LowerAllContains(f.topics.value, t);
        LowerAllContains(repo.topics, u);
        assert ToLower(t) in lt && ToLower(u) in lr;
      }
    }
  }

  /** Zero or an absent minimum sets no constraint; otherwise fewer stars drop the repository.
      Archived repositories go unless `includeArchived` is true. */
  lemma StarsAndArchiveRules(repo: StarredRepository, f: Filters)
    ensures f.minimumStars.None? || f.minimumStars == Some(0) ==> StarsAllowed(repo, f)
    ensures f.minimumStars.Some? && f.minimumStars.value != 0 ==>
      (StarsAllowed(repo, f) <==> repo.stargazersCount >= f.minimumStars.value)
    ensures repo.archived == Some(true) ==> (ArchiveAllowed(repo, f) <==> f.includeArchived == Some(true))
    ensures repo.archived != Some(true) ==> ArchiveAllowed(repo, f)
  {
  }

  /** A null filter column behaves like a filter object without keys. */
  lemma NullFiltersAreEmptyFilters(repos: seq<StarredRepository>)
    ensures ApplyFilters(repos, None) == ApplyFilters(repos, Some(NoFilters))
    ensures forall x :: x in ApplyFilters(repos, None) <==> x in repos && x.archived != Some(true)
  {
    ApplyFiltersMembers(repos, None);
  }

  /** The start of the star-date window. */
  function WindowStart(now: int, windowDays: int): int {
    now - windowDays * DAY_MS
  }

  predicate InWindow(repo: StarredRepository, windowStart: int) {
    repo.starredAt.None? || repo.starredAt.value >= windowStart
  }

  /** The window filter of `generateReminderDigest`: repositories without a
      star time, or starred at or after `windowStart`. */
  function WithinWindow(repos: seq<StarredRepository>, windowStart: int): (r: seq<StarredRepository>)
    ensures |r| <= |repos|
  {
    if repos == [] then []
    else
      var init := WithinWindow(repos[..|repos| - 1], windowStart);
      var last := repos[|repos| - 1];
      if InWindow(last, windowStart) then init + [last] else init
  }

  /** The window keeps exactly the repositories inside it, and adds or
      duplicates none. */
  lemma {:induction false} WithinWindowMembers(repos: seq<StarredRepository>, windowStart: int)
    ensures multiset(WithinWindow(repos, windowStart)) <= multiset(repos)
    ensures forall x :: x in WithinWindow(repos, windowStart) <==> x in repos && InWindow(x, windowStart)
  {
    if repos != [] {
      var init := repos[..|repos| - 1];
      WithinWindowMembers(init, windowStart);
      assert repos == init + [repos[|repos| - 1]];
    }
  }

  lemma {:induction false} WithinWindowKeepsOrder(a: seq<StarredRepository>, b: seq<StarredRepository>, windowStart: int)
    ensures WithinWindow(a + b, windowStart) == WithinWindow(a, windowStart) + WithinWindow(b, windowStart)
    decreases |b|
  {
    if b == [] {
      assert a + b == a;
    } else {
      var b' := b[..|b| - 1];
      assert (a + b)[..|a + b| - 1] == a + b';
      WithinWindowKeepsOrder(a, b', windowStart);
    }
  }

  lemma {:induction false} WithinWindowKeepsPassing(repos: seq<StarredRepository>, windowStart: int)
    requires forall x :: x in repos ==> InWindow(x, windowStart)
    ensures WithinWindow(repos, windowStart) == repos
  {
    if repos != [] {
      var init := repos[..|repos| - 1];
      assert repos == init + [repos[|repos| - 1]];
      assert forall x :: x in init ==> x in repos;
      WithinWindowKeepsPassing(init, windowStart);
    }
  }

  /** The repositories a digest is built from. */
  function EligibleRepos(starred: seq<StarredRepository>, filters: Option<Filters>, now: int, windowDays: int): (r: seq<StarredRepository>)
    ensures forall x :: x in r <==>
      x in starred && InWindow(x, WindowStart(now, windowDays)) && PassesFilters(x, filters.GetOr(NoFilters))
    ensures multiset(r) <= multiset(starred)
  {
    var windowed := WithinWindow(starred, WindowStart(now, windowDays));
    WithinWindowMembers(starred, WindowStart(now, windowDays));
    ApplyFiltersMembers(windowed, filters);
    ApplyFilters(windowed, filters)
  }

  /** Filtering an already eligible list with the same criteria changes nothing. */
  lemma EligibleIdempotent(starred: seq<StarredRepository>, filters: Option<Filters>, now: int, windowDays: int)
    ensures EligibleRepos(EligibleRepos(starred, filters, now, windowDays), filters, now, windowDays)
         == EligibleRepos(starred, filters, now, windowDays)
  {
    var e := EligibleRepos(starred, filters, now, windowDays);
    WithinWindowKeepsPassing(e, WindowStart(now, windowDays));
    ApplyFiltersKeepsPassing(e, filters);
  }
}
