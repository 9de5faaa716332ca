/** The bucketing step of the language highlight: repositories grouped by
    language, `null` counting as "Polyglot", buckets in order of first
    appearance, and the choice of the largest bucket. */
module LanguageBuckets {
  import opened Wrappers
  import opened GithubService

  const POLYGLOT := "Polyglot"

  /** `repo.language ?? 'Polyglot'` (an empty string is kept as it is). */
  function LanguageKey(r: StarredRepository): string {
    r.language.GetOr(POLYGLOT)
  }

  /** The bucket of `k`: the repositories with that key, in list order. */
  function Members(repos: seq<StarredRepository>, k: string): (r: seq<StarredRepository>)
    ensures |r| <= |repos|
  {
    if repos == [] then []
    else
      var init := Members(repos[..|repos| - 1], k);
      var last := repos[|repos| - 1];
      if LanguageKey(last) == k then init + [last] else init
  }

  /** A bucket holds exactly the repositories with its key, each no more often than the list does. */
  lemma {:induction false} MembersOfKey(repos: seq<StarredRepository>, k: string)
    ensures multiset(Members(repos, k)) <= multiset(repos)
    ensures forall x :: x in Members(repos, k) <==> x in repos && LanguageKey(x) == k
  {
    if repos != [] {
      var init := repos[..|repos| - 1];
      MembersOfKey(init, k);
      assert repos == init + [repos[|repos| - 1]];
    }
  }

  /** The bucket keys in order of first appearance (the order `Object.entries` reports). */
  function LanguageOrder(repos: seq<StarredRepository>): (keys: seq<string>)
    ensures forall i, j :: 0 <= i < j < |keys| ==> keys[i] != keys[j]
  {
    if repos == [] then []
    else
      var init := LanguageOrder(repos[..|repos| - 1]);
      var last := repos[|repos| - 1];
      assert repos == repos[..|repos| - 1] + [last];
      if LanguageKey(last) in init then init else init + [LanguageKey(last)]
  }

  /** One more repository of the input extends its own bucket and no other. */
  lemma MembersPrefix(repos: seq<StarredRepository>, i: nat, k: string)
    requires i < |repos|
    ensures Members(repos[..i + 1], k) ==
      Members(repos[..i], k) + (if LanguageKey(repos[i]) == k then [repos[i]] else [])
  {
    assert repos[..i + 1][..i] == repos[..i];
  }

  /** One more repository of the input lists its key if the key is new. */
  lemma LanguageOrderPrefix(repos: seq<StarredRepository>, i: nat)
    requires i < |repos|
    ensures LanguageOrder(repos[..i + 1]) ==
      if LanguageKey(repos[i]) in LanguageOrder(repos[..i]) then LanguageOrder(repos[..i])
      else LanguageOrder(repos[..i]) + [LanguageKey(repos[i])]
  {
    assert repos[..i + 1][..i] == repos[..i];
  }

  /** A key is listed exactly when its bucket is non-empty. */
  lemma {:induction false} ListedIffNonEmpty(repos: seq<StarredRepository>, k: string)
    ensures k in LanguageOrder(repos) <==> Members(repos, k) != []
  {
    if repos != [] {
      var init := repos[..|repos| - 1];
      ListedIffNonEmpty(init, k);
    }
  }

  lemma NoBucketOutsideOrder(repos: seq<StarredRepository>, k: string)
    requires k !in LanguageOrder(repos)
    ensures Members(repos, k) == []
  {
    ListedIffNonEmpty(repos, k);
  }

  /** `groups` holds the buckets of `s`, and `order` its keys in order of first appearance. */
  ghost predicate Grouped(order: seq<string>, groups: map<string, seq<StarredRepository>>, s: seq<StarredRepository>) {
    && order == LanguageOrder(s)
    && (forall k :: k in groups <==> k in order)
    && (forall k :: k in groups ==> groups[k] == Members(s, k))
  }

  /** The bucket of one key after the repository at position `i` is pushed. */
  lemma BucketStepAt(
    groups: map<string, seq<StarredRepository>>, groups': map<string, seq<StarredRepository>>,
    repos: seq<StarredRepository>, i: nat, k: string)
    requires i < |repos|
    requires forall k :: k in groups <==> k in LanguageOrder(repos[..i])
    requires forall k :: k in groups ==> groups[k] == Members(repos[..i], k)
    requires groups' == groups[LanguageKey(repos[i]) := (if LanguageKey(repos[i]) in groups then groups[LanguageKey(repos[i])] else []) + [repos[i]]]
    requires k in groups'
    ensures groups'[k] == Members(repos[..i + 1], k)
  {
    MembersPrefix(repos, i, k);
    if k == LanguageKey(repos[i]) && k !in groups {
      NoBucketOutsideOrder(repos[..i], k);
    }
  }

  /** The key list and the key set after the repository at position `i` is pushed. */
  lemma KeysStepAt(
    order: seq<string>, groups: map<string, seq<StarredRepository>>,
    order': seq<string>, groups': map<string, seq<StarredRepository>>,
    repos: seq<StarredRepository>, i: nat)
    requires i < |repos| && order == LanguageOrder(repos[..i])
    requires forall k :: k in groups <==> k in order
    requires order' == if LanguageKey(repos[i]) in groups then order else order + [LanguageKey(repos[i])]
    requires groups'.Keys == groups.Keys + {LanguageKey(repos[i])}
    ensures order' == LanguageOrder(repos[..i + 1])
    ensures forall k :: k in groups' <==> k in order'
  {
    LanguageOrderPrefix(repos, i);
  }

  /** Pushing the repository at position `i` onto its bucket keeps the buckets exact. */
  lemma GroupStepAt(
    order: seq<string>, groups: map<string, seq<StarredRepository>>,
    order': seq<string>, groups': map<string, seq<StarredRepository>>,
    repos: seq<StarredRepository>, i: nat)
    requires i < |repos| && Grouped(order, groups, repos[..i])
    requires order' == if LanguageKey(repos[i]) in groups then order else order + [LanguageKey(repos[i])]
    requires groups' == groups[LanguageKey(repos[i]) := (if LanguageKey(repos[i]) in groups then groups[LanguageKey(repos[i])] else []) + [repos[i]]]
    ensures Grouped(order', groups', repos[..i + 1])
  {
    KeysStepAt(order, groups, order', groups', repos, i);
    forall k | k in groups' ensures groups'[k] == Members(repos[..i + 1], k) {
      BucketStepAt(groups, groups', repos, i, k);
    }
  }

  /** The `reduce` that pushes each repository onto its language's bucket. */
  method GroupByLanguage(repos: seq<StarredRepository>) returns (order: seq<string>, groups: map<string, seq<StarredRepository>>)
    ensures order == LanguageOrder(repos)
    ensures forall k :: k in groups <==> k in order
    ensures forall k :: k in groups ==> groups[k] == Members(repos, k)
  {
    order, groups := [], map[];
    var i := 0;
    while i < |repos|
      invariant 0 <= i <= |repos|
      invariant Grouped(order, groups, repos[..i])
    {
      var language := LanguageKey(repos[i]);
      var bucket := if language in groups then groups[language] else [];
      var order' := if language in groups then order else order + [language];
      var groups' := groups[language := bucket + [repos[i]]];
      GroupStepAt(order, groups, order', groups', repos, i);
      order, groups := order', groups';
      i := i + 1;
    }
    assert repos[..|repos|] == repos;
  }

  /** Bucket size, as a function of the list and the key. */
  function Size(repos: seq<StarredRepository>, k: string): nat {
    |Members(repos, k)|
  }

  /** The index of the first largest entry above one: what
      `filter(n > 1).sort(descending)[0]` selects, since the sort is stable. */
  function FirstLargest(sizes: seq<nat>): (r: Option<nat>)
    ensures r.None? <==> forall i :: 0 <= i < |sizes| ==> sizes[i] <= 1
    ensures r.Some? ==> r.value < |sizes| && sizes[r.value] > 1
    ensures r.Some? ==> forall i :: 0 <= i < |sizes| ==> sizes[i] <= sizes[r.value]
    ensures r.Some? ==> forall i :: 0 <= i < r.value ==> sizes[i] < sizes[r.value]
  {
    if sizes == [] then None
    else
      var n := |sizes| - 1;
      var best := FirstLargest(sizes[..n]);
      if sizes[n] > 1 && (best.None? || sizes[n] > sizes[best.value]) then Some(n) else best
  }

  function Sizes(keys: seq<string>, repos: seq<StarredRepository>): (sizes: seq<nat>)
    ensures |sizes| == |keys| && forall i :: 0 <= i < |keys| ==> sizes[i] == Size(repos, keys[i])
  {
    seq(|keys|, i requires 0 <= i < |keys| => Size(repos, keys[i]))
  }

  /** Index, in `LanguageOrder(repos)`, of the winning bucket. */
  function LargestBucket(repos: seq<StarredRepository>): Option<nat> {
    FirstLargest(Sizes(LanguageOrder(repos), repos))
  }

  /** A key that is not listed has an empty bucket. */
  lemma SizeOutsideOrder(repos: seq<StarredRepository>)
    ensures forall k :: k !in LanguageOrder(repos) ==> Size(repos, k) == 0
  {
    forall k | k !in LanguageOrder(repos) ensures Size(repos, k) == 0 {
      NoBucketOutsideOrder(repos, k);
    }
  }

  /** With no winning index, no bucket has more than one member. */
  lemma NoLargestBucket(repos: seq<StarredRepository>)
    requires LargestBucket(repos).None?
    ensures forall k :: Size(repos, k) <= 1
  {
    var keys := LanguageOrder(repos);
    var sizes := Sizes(keys, repos);
    SizeOutsideOrder(repos);
    forall k ensures Size(repos, k) <= 1 {
      if k in keys {
        var j :| 0 <= j < |keys| && keys[j] == k;
        assert sizes[j] == Size(repos, k);
      }
    }
  }

  /** The winning index names a bucket above one that no bucket outgrows. */
  lemma LargestBucketIsLargest(repos: seq<StarredRepository>)
    requires LargestBucket(repos).Some?
    ensures LargestBucket(repos).value < |LanguageOrder(repos)|
    ensures Size(repos, LanguageOrder(repos)[LargestBucket(repos).value]) > 1
    ensures forall k :: Size(repos, k) <= Size(repos, LanguageOrder(repos)[LargestBucket(repos).value])
  {
    var keys := LanguageOrder(repos);
    var sizes := Sizes(keys, repos);
    var b := LargestBucket(repos).value;
    SizeOutsideOrder(repos);
    forall k ensures Size(repos, k) <= Size(repos, keys[b]) {
      if k in keys {
        var j :| 0 <= j < |keys| && keys[j] == k;
        assert sizes[j] == Size(repos, k);
      }
    }
  }

  /** The winning language, if some bucket has more than one member. */
  function TopLanguage(repos: seq<StarredRepository>): (r: Option<string>)
    ensures r.None? <==> forall k :: Size(repos, k) <= 1
    ensures r.Some? ==> Size(repos, r.value) > 1 && forall k :: Size(repos, k) <= Size(repos, r.value)
  {
    if LargestBucket(repos).None? then
      NoLargestBucket(repos);
      None
    else
      LargestBucketIsLargest(repos);
      Some(LanguageOrder(repos)[LargestBucket(repos).value])
  }

  /** Ties between equally large buckets go to the language that appeared first. */
  lemma TopLanguageTieBreak(repos: seq<StarredRepository>, k: string)
    requires TopLanguage(repos).Some?
    requires k in LanguageOrder(repos) && Size(repos, k) == Size(repos, TopLanguage(repos).value)
    ensures TopLanguage(repos).value in LanguageOrder(repos)
    ensures exists i, j :: (0 <= i <= j < |LanguageOrder(repos)| &&
      LanguageOrder(repos)[i] == TopLanguage(repos).value && LanguageOrder(repos)[j] == k)
  {
    var keys := LanguageOrder(repos);
    var b := LargestBucket(repos).value;
    var j :| 0 <= j < |keys| && keys[j] == k;
    assert b <= j;
    assert 0 <= b <= j < |keys| && keys[b] == TopLanguage(repos).value && keys[j] == k;
  }
}
