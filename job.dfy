/** The body of the reminder cron job: for each user of the query, in order,
    skip, generate, send, then mark. An error thrown by any step ends the
    whole run, since the loop has no `catch`. */
module ReminderJob {
  import opened Wrappers
  import opened GithubService
  import opened Accounts
  import opened DigestItems
  import opened Digest
  import opened CadenceGate
  import opened Bookkeeping
  import opened EmailService

  /** Everything outside the program that one run consults, by the position
      of the user in the query result: stored tokens, the GitHub answers,
      the random draws of each digest and whether each send goes through. */
  datatype World = World(
    tokens: UserId -> Option<string>,
    github: nat -> (StarredRequest -> Result<ResponseData, string>),
    draws: nat -> Randomness,
    transport: nat -> bool,
    windowDays: int)

  ghost predicate ValidWorld(w: World) {
    forall i :: ValidRandomness(w.draws(i))
  }

  /** Why a run stopped early, and at which user. */
  datatype Abort = FetchFailed(user: nat, error: FetchError) | SendThrew(user: nat) | UserMissing(user: nat)

  /** The database, the mails sent so far, and whether the run has stopped. */
  datatype JobState = JobState(
    users: map<UserId, User>, reminders: map<ReminderKey, Reminder>, outbox: seq<Mail>, aborted: Option<Abort>)

  /** `!user.notificationEmail` is false: an address that is neither null nor empty. */
  predicate HasAddress(user: User) {
    user.notificationEmail.Some? && user.notificationEmail.value != ""
  }

  /** One pass of the loop body for the `i`-th user, given what generating
      the digest and sending the mail would give. */
  function Step(st: JobState, user: User, i: nat, digest: Result<ReminderDigest, FetchError>, outcome: SendOutcome, now: int): JobState {
    if st.aborted.Some? || !HasAddress(user) || !UserIsDueForDigest(user, now) then st
    else
      match digest
      case Failure(e) => st.(aborted := Some(FetchFailed(i, e)))
      case Success(d) =>
        if d.highlights == [] then st
        else if outcome == Failed then st.(aborted := Some(SendThrew(i)))
        else
          var outbox := if outcome == Delivered
            then st.outbox + [Mail(user.notificationEmail.value, d, user.username)] else st.outbox;
          if user.id !in st.users then st.(outbox := outbox, aborted := Some(UserMissing(i)))
          else JobState(
            st.users[user.id := st.users[user.id].(lastDigestSentAt := Some(now))],
            UpsertAll(st.reminders, user.id, AllItems(d.highlights), now),
            outbox, None)
  }

  /** The digest the `i`-th user would get. */
  function DigestAt(user: User, i: nat, w: World, now: int): Result<ReminderDigest, FetchError>
    requires ValidWorld(w)
  {
    ReminderDigestFor(user, w.tokens(user.id), w.github(i), now, w.windowDays, w.draws(i))
  }

  /** One pass of the loop body for the `i`-th user. */
  function ProcessUser(st: JobState, user: User, i: nat, w: World, apiKey: bool, now: int): JobState
    requires ValidWorld(w)
  {
    Step(st, user, i, DigestAt(user, i, w, now), SendOutcomeFor(apiKey, w.transport(i)), now)
  }

  /** The run over the query result, user by user, where `digests` gives
      the digest each user would get and `outcomes` what each send does. */
  function RunSteps(
    users: seq<User>, st: JobState, digests: (User, nat) --> Result<ReminderDigest, FetchError>,
    outcomes: nat -> SendOutcome, now: int): JobState
    requires forall u, i :: digests.requires(u, i)
  {
    if users == [] then st
    else
      var n := |users| - 1;
      Step(RunSteps(users[..n], st, digests, outcomes, now), users[n], n, digests(users[n], n), outcomes(n), now)
  }

  /** The digests of the run: `generateReminderDigest` for each user. */
  function DigestsOf(w: World, now: int): (User, nat) --> Result<ReminderDigest, FetchError> {
    (u: User, i: nat) requires ValidWorld(w) => DigestAt(u, i, w, now)
  }

  /** The send outcomes of the run. */
  function OutcomesOf(w: World, apiKey: bool): nat -> SendOutcome {
    (i: nat) => SendOutcomeFor(apiKey, w.transport(i))
  }

  /** The run over the query result, each user processed by `ProcessUser`. */
  function RunJob(users: seq<User>, st: JobState, w: World, apiKey: bool, now: int): JobState
    requires ValidWorld(w)
  {
    RunSteps(users, st, DigestsOf(w, now), OutcomesOf(w, apiKey), now)
  }

  /** A user without an address is never sent a digest nor marked. */
  lemma NoAddressNoEffect(st: JobState, user: User, i: nat, w: World, apiKey: bool, now: int)
    requires ValidWorld(w) && !HasAddress(user)
    ensures ProcessUser(st, user, i, w, apiKey, now) == st
  {
  }

  /** A user who is not due is skipped: nothing is generated, sent or marked. */
  lemma NotDueNoEffect(st: JobState, user: User, i: nat, w: World, apiKey: bool, now: int)
    requires ValidWorld(w) && !UserIsDueForDigest(user, now)
    ensures ProcessUser(st, user, i, w, apiKey, now) == st
  {
  }

  /** A digest without highlights is neither sent nor marked; that happens
      exactly when no starred repository is eligible. */
  lemma EmptyDigestNoEffect(st: JobState, user: User, i: nat, w: World, apiKey: bool, now: int)
    requires ValidWorld(w)
    requires FetchStarredRepositories(w.tokens(user.id), DIGEST_FETCH_PARAMS, w.github(i)).Success?
    requires var starred := FetchStarredRepositories(w.tokens(user.id), DIGEST_FETCH_PARAMS, w.github(i)).value;
      Eligibility.EligibleRepos(starred, user.filters, now, w.windowDays) == []
    ensures ProcessUser(st, user, i, w, apiKey, now) == st
  {
    var starred := FetchStarredRepositories(w.tokens(user.id), DIGEST_FETCH_PARAMS, w.github(i)).value;
    EmptyDigestIffNothingEligible(user.username, Eligibility.EligibleRepos(starred, user.filters, now, w.windowDays), now, w.draws(i));
  }

  /** A failed send stops the run with the user unmarked and nothing sent. */
  lemma SendFailureLeavesUnmarked(st: JobState, user: User, i: nat, w: World, apiKey: bool, now: int)
    requires ValidWorld(w) && st.aborted.None? && HasAddress(user) && UserIsDueForDigest(user, now)
    requires DigestAt(user, i, w, now).Success? && DigestAt(user, i, w, now).value.highlights != []
    requires SendOutcomeFor(apiKey, w.transport(i)) == Failed
    ensures ProcessUser(st, user, i, w, apiKey, now) == st.(aborted := Some(SendThrew(i)))
  {
  }

  /** `SentUserIsMarked` for one pass with a given digest and send outcome. */
  lemma StepMarks(st: JobState, user: User, i: nat, digest: Result<ReminderDigest, FetchError>, outcome: SendOutcome, now: int)
    requires st.aborted.None? && HasAddress(user) && UserIsDueForDigest(user, now)
    requires user.id in st.users && outcome != Failed
    requires digest.Success? && digest.value.highlights != []
    ensures var r := Step(st, user, i, digest, outcome, now);
      && r.aborted.None?
      && r.users[user.id].lastDigestSentAt == Some(now)
      && (forall k :: k != user.id ==> (k in r.users <==> k in st.users) && (k in st.users ==> r.users[k] == st.users[k]))
      && r.reminders == UpsertAll(st.reminders, user.id, AllItems(digest.value.highlights), now)
      && r.outbox == st.outbox + (if outcome == Delivered then [Mail(user.notificationEmail.value, digest.value, user.username)] else [])
  {
  }

  /** A user whose send returned normally, a skipped send included, is
      marked with the items of every highlight in highlight order. */
  lemma SentUserIsMarked(st: JobState, user: User, i: nat, w: World, apiKey: bool, now: int)
    requires ValidWorld(w) && st.aborted.None? && HasAddress(user) && UserIsDueForDigest(user, now)
    requires user.id in st.users && SendOutcomeFor(apiKey, w.transport(i)) != Failed
    requires DigestAt(user, i, w, now).Success? && DigestAt(user, i, w, now).value.highlights != []
    ensures var d := DigestAt(user, i, w, now).value;
      var r := ProcessUser(st, user, i, w, apiKey, now);
      && r.aborted.None?
      && r.users[user.id].lastDigestSentAt == Some(now)
      && (forall k :: k != user.id ==> (k in r.users <==> k in st.users) && (k in st.users ==> r.users[k] == st.users[k]))
      && r.reminders == UpsertAll(st.reminders, user.id, AllItems(d.highlights), now)
      && r.outbox == st.outbox + (if apiKey then [Mail(user.notificationEmail.value, d, user.username)] else [])
  {
    StepMarks(st, user, i, DigestAt(user, i, w, now), SendOutcomeFor(apiKey, w.transport(i)), now);
  }

  /** Once stopped, the run changes nothing more. */
  lemma {:induction false} AbortedStaysAborted(
    users: seq<User>, st: JobState, digests: (User, nat) --> Result<ReminderDigest, FetchError>,
    outcomes: nat -> SendOutcome, now: int)
    requires (forall u, i :: digests.requires(u, i)) && st.aborted.Some?
    ensures RunSteps(users, st, digests, outcomes, now) == st
  {
    if users != [] {
      AbortedStaysAborted(users[..|users| - 1], st, digests, outcomes, now);
    }
  }

  /** After an abort no later user of the list is processed. */
  lemma {:induction false} AbortStops(
    a: seq<User>, b: seq<User>, st: JobState, digests: (User, nat) --> Result<ReminderDigest, FetchError>,
    outcomes: nat -> SendOutcome, now: int)
    requires forall u, i :: digests.requires(u, i)
    requires RunSteps(a, st, digests, outcomes, now).aborted.Some?
    ensures RunSteps(a + b, st, digests, outcomes, now) == RunSteps(a, st, digests, outcomes, now)
    decreases |b|
  {
    if b == [] {
      assert a + b == a;
    } else {
      var b' := b[..|b| - 1];
      assert (a + b)[..|a + b| - 1] == a + b';
      AbortStops(a, b', st, digests, outcomes, now);
    }
  }

  /** One pass sends at most one mail, to the user's address, with a
      non-empty digest, and never takes back what was sent. */
  lemma StepMail(st: JobState, user: User, i: nat, digest: Result<ReminderDigest, FetchError>, outcome: SendOutcome, now: int)
    ensures var r := Step(st, user, i, digest, outcome, now);
      && |st.outbox| <= |r.outbox| <= |st.outbox| + 1
      && r.outbox[..|st.outbox|] == st.outbox
      && (|r.outbox| > |st.outbox| ==>
        HasAddress(user) && r.outbox[|st.outbox|].to == user.notificationEmail.value
        && r.outbox[|st.outbox|].digest.highlights != [])
  {
  }

  /** A run sends at most one mail per user, each to a listed user's address
      with a non-empty digest, after the mails that were already sent. */
  lemma {:induction false} RunJobMail(
    users: seq<User>, st: JobState, digests: (User, nat) --> Result<ReminderDigest, FetchError>,
    outcomes: nat -> SendOutcome, now: int)
    requires forall u, i :: digests.requires(u, i)
    ensures var r := RunSteps(users, st, digests, outcomes, now);
      && |st.outbox| <= |r.outbox| <= |st.outbox| + |users|
      && r.outbox[..|st.outbox|] == st.outbox
      && forall k :: |st.outbox| <= k < |r.outbox| ==>
        r.outbox[k].digest.highlights != [] &&
        exists u :: u in users && HasAddress(u) && r.outbox[k].to == u.notificationEmail.value
  {
    if users != [] {
      var n := |users| - 1;
      var init := users[..n];
      var last := users[n];
      RunJobMail(init, st, digests, outcomes, now);
      var mid := RunSteps(init, st, digests, outcomes, now);
      StepMail(mid, last, n, digests(last, n), outcomes(n), now);
      var r := RunSteps(users, st, digests, outcomes, now);
      assert r.outbox[..|mid.outbox|] == mid.outbox;
      forall k | |st.outbox| <= k < |r.outbox|
        ensures r.outbox[k].digest.highlights != [] &&
          exists u :: u in users && HasAddress(u) && r.outbox[k].to == u.notificationEmail.value
      {
        if k < |mid.outbox| {
          assert r.outbox[k] == mid.outbox[k];
          var u :| u in init && HasAddress(u) && mid.outbox[k].to == u.notificationEmail.value;
          assert u in users;
        } else {
          assert last in users;
        }
      }
    }
  }

  /** The loop body for the `i`-th user: the `continue` guards, then
      generate, send and mark; an abort is an error escaping the loop. */
  method ProcessOne(user: User, i: nat, store: ReminderStore, mailer: Mailer, w: World, now: int)
    returns (aborted: Option<Abort>)
    requires ValidWorld(w)
    modifies store, mailer
    ensures JobState(store.users, store.reminders, mailer.outbox, aborted) ==
      ProcessUser(JobState(old(store.users), old(store.reminders), old(mailer.outbox), None), user, i, w, mailer.apiKeyConfigured, now)
  {
    aborted := None;
    if !HasAddress(user) || !UserIsDueForDigest(user, now) {
      return;
    }
    var digest := GenerateReminderDigest(user, w.tokens(user.id), w.github(i), now, w.windowDays, w.draws(i));
    assert digest == DigestAt(user, i, w, now);
    if digest.Failure? {
      return Some(FetchFailed(i, digest.error));
    }
    if digest.value.highlights == [] {
      return;
    }
    var outcome := mailer.SendReminderEmail(Mail(user.notificationEmail.value, digest.value, user.username), w.transport(i));
    if outcome == Failed {
      return Some(SendThrew(i));
    }
    var found := store.MarkDigestSent(user.id, AllItems(digest.value.highlights), now);
    if !found {
      return Some(UserMissing(i));
    }
  }

  /** The cron callback's loop. `users` is the query result, in query order. */
  method RunReminderJob(users: seq<User>, store: ReminderStore, mailer: Mailer, w: World, now: int)
    returns (aborted: Option<Abort>)
    requires ValidWorld(w)
    modifies store, mailer
    ensures JobState(store.users, store.reminders, mailer.outbox, aborted) ==
      RunJob(users, JobState(old(store.users), old(store.reminders), old(mailer.outbox), None), w, mailer.apiKeyConfigured, now)
  {
    ghost var start := JobState(store.users, store.reminders, mailer.outbox, None);
    aborted := None;
    var i := 0;
    while i < |users|
      invariant 0 <= i <= |users|
      invariant aborted.None?
      invariant JobState(store.users, store.reminders, mailer.outbox, None) == RunJob(users[..i], start, w, mailer.apiKeyConfigured, now)
    {
      assert users[..i + 1][..i] == users[..i];
      aborted := ProcessOne(users[i], i, store, mailer, w, now);
      if aborted.Some? {
        Finish(users, i, start, DigestsOf(w, now), OutcomesOf(w, mailer.apiKeyConfigured), now);
        return;
      }
      i := i + 1;
    }
    assert users[..|users|] == users;
  }

  /** When the run stops at user `i`, the whole run equals the run up to `i`. */
  lemma Finish(
    users: seq<User>, i: nat, st: JobState, digests: (User, nat) --> Result<ReminderDigest, FetchError>,
    outcomes: nat -> SendOutcome, now: int)
    requires (forall u, i :: digests.requires(u, i)) && i < |users|
    requires RunSteps(users[..i + 1], st, digests, outcomes, now).aborted.Some?
    ensures RunSteps(users, st, digests, outcomes, now) == RunSteps(users[..i + 1], st, digests, outcomes, now)
  {
    AbortStops(users[..i + 1], users[i + 1..], st, digests, outcomes, now);
    assert users[..i + 1] + users[i + 1..] == users;
  }
}
