# Star Spark digest pipeline, modelled in Dafny

Star Spark e-mails each GitHub user a "Star Spark Digest" on a schedule. The
digest picks a few of the user's starred repositories and groups them into up
to four highlights: Fresh Sparks, Throwback Legends, a Language Lounge and
Cosmic Serendipity. This project models the pieces behind the digest:

- the GitHub starred-repository fetch: the token precondition, default request
  parameters, normalisation of response items, and the `fetchStarredWithSince`
  window;
- eligibility: the reminder window and the user's filters (languages, topics,
  minimum stars, archived);
- the stable sort by star time, the language buckets, and the four highlight
  builders, each proved against an independent specification;
- digest assembly and the vibe lines;
- the cadence table, the "is due" gate and `markDigestSent`, with its reminder
  table upserts;
- the nightly job loop over users, with its send / mark / skip / abort
  behaviour;
- the stored-filter codec and `presentUser`;
- on the web side, the session store's status machine and the two settings-form
  conversions.

All times are integer milliseconds. Three things are parameters of the model:

- the clock: one `now` per operation;
- the GitHub API and the mail transport: functions that answer each request;
- `Math.random`: an oracle, `Randomness`, that picks a vibe line out of three
  and permutes a list.

The imperative parts are modelled in imperative Dafny:

- the array sort;
- the bucket-building loop;
- the job loop;
- `markDigestSent`;
- the session store.

Each of them is proved equal to a functional specification, and the
specification's properties are proved as lemmas.

The job run is stated for any digest and any send outcome per user
(`ReminderJob.RunSteps`). `ReminderJob.RunJob` fills these in with
`generateReminderDigest` and `sendReminderEmail`. So the lemmas about aborts
and mails hold whatever the GitHub API and the transport answer.

Modules follow the source files:

| module | source file |
|---|---|
| `GithubService` | `githubService.ts` |
| `Eligibility` | `applyFilters` and the window filter |
| `StarOrder` | `sortByStarredDate` |
| `LanguageBuckets` | the Language builder's `reduce` and `sort` |
| `DigestItems` | `pickVibe`, `toDigestRepo` |
| `Highlights` | the four builders |
| `Digest` | `generateReminderDigest` |
| `CadenceGate` | `cadenceToDays`, `userIsDueForDigest` |
| `Bookkeeping` | `markDigestSent` |
| `EmailService` | `sendReminderEmail`, reduced to its outcome |
| `ReminderJob` | the job loop |
| `CadenceDomain` | `cadence.ts` |
| `UserFilters` | `userFilters.ts` |
| `UserPresenter` | `userPresenter.ts` |
| `SessionStore` | `session.ts` |
| `SettingsForm` | `Settings.tsx` |
| `Text` | the JavaScript string built-ins the code uses |

## Model

| member | source | states |
|---|---|---|
| GithubService.ToStarredRepository | apps/api/src/services/githubService.ts:45-63 | fails (the thrown `TypeError`) exactly when the element has no `owner`; otherwise every field is copied from the element and missing topics become the empty list |
| GithubService.NormaliseIsLossless | apps/api/src/services/githubService.ts:45-63 | on items that carry topics and an owner, normalisation is injective: two items normalise alike exactly when they are equal |
| GithubService.SelectItems | apps/api/src/services/githubService.ts:102-103 | an array body is the item list; an object body yields its `items`, or nothing when they are missing |
| GithubService.DecodeResponse | apps/api/src/services/githubService.ts:102-103 | fails with MissingOwner exactly when some selected element has no owner; otherwise one normalised repository per selected element, in order |
| GithubService.RequestParamsFor | apps/api/src/services/githubService.ts:91-96 | per_page, page, sort and direction each take the caller's value, else 50, 1, created and desc |
| GithubService.DefaultRequestParams | apps/api/src/services/githubService.ts:85-96 | no parameters give (50, 1, created, desc), and `since` never reaches the request |
| GithubService.FetchStarredRepositories | apps/api/src/services/githubService.ts:65-104 | fails with "No GitHub token available" exactly when there is no token; otherwise it sends one bearer-authorised request with the defaulted parameters, and the upstream error comes back, or MissingOwner when an element has no owner, or else the decoded body |
| GithubService.StarredSince | apps/api/src/services/githubService.ts:116-121 | keeps exactly the repositories with a star time between `since` and now, never adds one, never duplicates one |
| GithubService.StarredSinceKeepsOrder | apps/api/src/services/githubService.ts:116-121 | the filter distributes over concatenation, so the survivors keep their order |
| GithubService.FetchStarredWithSince | apps/api/src/services/githubService.ts:106-122 | succeeds exactly when the 100-per-page created/desc fetch does, with its list narrowed to the window; otherwise it fails with the fetch's own error, NoGithubToken when there is no token |
| CadenceDomain.IsCadence | apps/api/src/domain/cadence.ts:11-13 | true exactly for a string equal to DAILY, WEEKLY, BIWEEKLY or MONTHLY |
| CadenceDomain.CadenceValuesDistinct | apps/api/src/domain/cadence.ts:3 | the four cadence names are distinct |
| CadenceDomain.DefaultCadenceIsCadence | apps/api/src/domain/cadence.ts:7 | the default, WEEKLY, is itself a valid cadence |
| CadenceDomain.CadenceIsCaseSensitive | apps/api/src/domain/cadence.ts:11-13 | a non-string, and a wrongly cased "weekly", are not cadences |
| UserFilters.KeyCount | apps/api/src/lib/userFilters.ts:19 | the number of keys present is 0 only for the empty filter object |
| UserFilters.SerializeUserFilters | apps/api/src/lib/userFilters.ts:8-24 | undefined stays undefined and null stays null; an empty object is stored as null; anything else becomes its JSON text |
| UserFilters.DeserializeUserFilters | apps/api/src/lib/userFilters.ts:26-37 | null and the empty string give null; otherwise the parsed object, or null when parsing fails |
| UserFilters.StoredFiltersRoundTrip | apps/api/src/lib/userFilters.ts:8-37 | for a JSON codec that round-trips, storing then loading gives the filters back; the empty object comes back as null |
| UserPresenter.PresentUser | apps/api/src/lib/userPresenter.ts:14-22 | the other fields are untouched and the cadence is always valid: a valid one is kept, an invalid one becomes WEEKLY; the filters are deserialised |
| Eligibility.PassesFilters | apps/api/src/services/reminderService.ts:96-123 | a repository passes when the language, topic, star and archive rules all let it through |
| Eligibility.ApplyFilters | apps/api/src/services/reminderService.ts:94-125 | `repos.filter(...)` never lengthens the list; which repositories it keeps is stated by Eligibility.ApplyFiltersMembers |
| Eligibility.ApplyFiltersMembers | apps/api/src/services/reminderService.ts:94-125 | keeps exactly the repositories that pass the user's filters, a null filter column read as `{}`; it never adds or duplicates one |
| Eligibility.ApplyFiltersKeepsOrder | apps/api/src/services/reminderService.ts:96 | filtering distributes over concatenation, so the order is kept |
| Eligibility.ApplyFiltersKeepsPassing | apps/api/src/services/reminderService.ts:96 | a list whose members all pass comes back unchanged |
| Eligibility.ApplyFiltersIdempotent | apps/api/src/services/reminderService.ts:94-125 | filtering twice is filtering once |
| Eligibility.LanguageRule | apps/api/src/services/reminderService.ts:97-102 | a repository with no language (or an empty one) passes; otherwise it passes iff the list is empty or holds its language, ignoring case |
| Eligibility.TopicRule | apps/api/src/services/reminderService.ts:104-111 | a missing or empty topic list lets everything through; otherwise some topic must match, ignoring case |
| Eligibility.StarsAndArchiveRules | apps/api/src/services/reminderService.ts:113-121 | a zero or absent minimum sets no bound, any other minimum drops repositories below it; an archived repository passes iff includeArchived is true |
| Eligibility.NullFiltersAreEmptyFilters | apps/api/src/services/reminderService.ts:95-121 | a null filter column acts as `{}`, which still drops archived repositories |
| Eligibility.WithinWindow | apps/api/src/services/reminderService.ts:215-220 | the window filter never lengthens the list; which repositories it keeps is stated by Eligibility.WithinWindowMembers |
| Eligibility.WithinWindowMembers | apps/api/src/services/reminderService.ts:215-220 | keeps exactly the repositories with no star time or one at or after the window start, never adding or duplicating one |
| Eligibility.WithinWindowKeepsOrder | apps/api/src/services/reminderService.ts:215-220 | the window filter distributes over concatenation |
| Eligibility.WithinWindowKeepsPassing | apps/api/src/services/reminderService.ts:215-220 | a list entirely inside the window comes back unchanged |
| Eligibility.EligibleRepos | apps/api/src/services/reminderService.ts:212-222 | a repository is eligible iff it was fetched, lies in the window and passes the filters |
| Eligibility.EligibleIdempotent | apps/api/src/services/reminderService.ts:212-222 | eligibility applied twice is applied once |
| StarOrder.InsertSorted | apps/api/src/services/reminderService.ts:127-133 | inserting into a sorted list keeps it sorted by star time |
| StarOrder.InsertStable | apps/api/src/services/reminderService.ts:127-133 | insertion keeps the relative order of repositories whose star times are equal |
| StarOrder.Insert | apps/api/src/services/reminderService.ts:128-132 | one insertion under the comparator; it is specified by StarOrder.InsertSorted and StarOrder.InsertStable |
| StarOrder.SortedByStarTime | apps/api/src/services/reminderService.ts:127-133 | the stable sort `[...repos].sort(...)` computes; it is specified by StarOrder.SortedByStarTimeFacts |
| StarOrder.SortedByStarTimeFacts | apps/api/src/services/reminderService.ts:127-133 | the sort specification is sorted in the requested direction, a missing time counting as 0; it is a permutation of the input and stable |
| StarOrder.InsertPosition | apps/api/src/services/reminderService.ts:128-132 | finds where the comparator places a repository |
| StarOrder.InsertLast | apps/api/src/services/reminderService.ts:128-132 | one in-place insertion step on the copied array; the cells behind it are untouched |
| StarOrder.SortByStarredDate | apps/api/src/services/reminderService.ts:127-133 | sorts a copy in an array and returns exactly the stable sort by star time; the input is not changed |
| LanguageBuckets.MembersOfKey | apps/api/src/services/reminderService.ts:171-176 | a bucket holds exactly the repositories with that language, null read as "Polyglot", none more often than the input |
| LanguageBuckets.LanguageOrder | apps/api/src/services/reminderService.ts:171-176 | the bucket keys in first-appearance order, without repeats |
| LanguageBuckets.ListedIffNonEmpty | apps/api/src/services/reminderService.ts:171-178 | a language is a key iff its bucket is non-empty |
| LanguageBuckets.GroupByLanguage | apps/api/src/services/reminderService.ts:171-176 | the reduce loop builds a dictionary whose keys, in insertion order (no key integer-like), are the language order and whose buckets are the members |
| LanguageBuckets.FirstLargest | apps/api/src/services/reminderService.ts:178-180 | no index when every size is at most 1; otherwise the first index of maximal size, which is above 1 |
| LanguageBuckets.TopLanguage | apps/api/src/services/reminderService.ts:178-180 | none iff no bucket has two members; otherwise a bucket of maximal size above 1 |
| LanguageBuckets.TopLanguageTieBreak | apps/api/src/services/reminderService.ts:178-180 | between equally large buckets the stable descending sort picks the one whose language appeared first, when no language name is integer-like |
| DigestItems.VibePool | apps/api/src/services/reminderService.ts:48-69 | each group has three vibe lines |
| DigestItems.PickVibe | apps/api/src/services/reminderService.ts:71-74 | whatever the roll, the line comes from the group's pool |
| DigestItems.EveryVibeReachable | apps/api/src/services/reminderService.ts:71-74 | every line of the pool is the pick for some roll |
| DigestItems.RepoNameWithoutSlash | apps/api/src/services/reminderService.ts:78 | a full name without "/" is its own short name |
| DigestItems.RepoNameOfPath | apps/api/src/services/reminderService.ts:78 | the short name of "owner/repo" is repo |
| DigestItems.RepoName | apps/api/src/services/reminderService.ts:78 | `split('/')[1] ?? full_name`; specified by DigestItems.RepoNameWithoutSlash and DigestItems.RepoNameOfPath |
| DigestItems.ToDigestRepo | apps/api/src/services/reminderService.ts:76-92 | the item shows the repository's fields, empty topics for missing ones, and a vibe from the group's pool |
| DigestItems.ToItems | apps/api/src/services/reminderService.ts:145 | `picks.map(toDigestRepo)`, as each of the four builders calls it: one item per pick, in order, each showing its pick |
| DigestItems.Take3 | apps/api/src/services/reminderService.ts:200 | `slice(0, 3)`, used by each of the four builders: the first min(3, n) elements |
| Highlights.TopThreeOfSorted | apps/api/src/services/reminderService.ts:151-156 | the first three of a sorted list are sorted; nothing left out comes before any of them |
| Highlights.FreshPicks | apps/api/src/services/reminderService.ts:136 | the three newest stars; specified by Highlights.FreshPicksFacts |
| Highlights.FreshPicksFacts | apps/api/src/services/reminderService.ts:135-136 | min(3, n) picks in descending star-time order, drawn from the input, none of the rest starred later than a pick |
| Highlights.FreshHighlight | apps/api/src/services/reminderService.ts:135-147 | null iff nothing is eligible; otherwise the fresh-sparks id, title and tagline with one item per pick |
| Highlights.CreateFreshHighlight | apps/api/src/services/reminderService.ts:135-147 | the builder, through the array sort, equals the specification |
| Highlights.Throwbacks | apps/api/src/services/reminderService.ts:151-155 | keeps exactly the repositories starred strictly before now minus 45 days |
| Highlights.ThrowbackPicks | apps/api/src/services/reminderService.ts:151-156 | the three oldest stars before the threshold; specified by Highlights.ThrowbackPicksFacts |
| Highlights.ThrowbackPicksFacts | apps/api/src/services/reminderService.ts:149-160 | at most three picks, none iff nothing qualifies; each pick is from the input and strictly older than 45 days; ascending, and the oldest qualifying ones |
| Highlights.ThrowbackHighlight | apps/api/src/services/reminderService.ts:149-168 | null iff no repository qualifies; otherwise the throwback-legends id, title and tagline over the picks |
| Highlights.CreateThrowbackHighlight | apps/api/src/services/reminderService.ts:149-168 | the builder, through the array sort, equals the specification |
| Highlights.LanguagePicksFacts | apps/api/src/services/reminderService.ts:178-190 | no lounge iff no bucket has two members or the top key is the empty string; otherwise the language has a largest bucket and its first two or three members are picked |
| Highlights.LanguagePicks | apps/api/src/services/reminderService.ts:190 | `libraries.slice(0, 3)`; specified by Highlights.LanguagePicksFacts |
| Highlights.LanguageHighlight | apps/api/src/services/reminderService.ts:170-192 | null iff there is no lounge language; otherwise "<language> Lounge" with the language tagline |
| Highlights.TopBucket | apps/api/src/services/reminderService.ts:171-180 | the dictionary loop and the scan over its entries produce the top language and its bucket |
| Highlights.CreateLanguageHighlight | apps/api/src/services/reminderService.ts:170-192 | the builder equals the specification |
| Highlights.SerendipityPicksFacts | apps/api/src/services/reminderService.ts:199-200 | min(3, n) picks, all from the input, none duplicated |
| Highlights.SerendipityPicks | apps/api/src/services/reminderService.ts:199-200 | three elements of the shuffled copy; specified by Highlights.SerendipityPicksFacts |
| Highlights.SerendipityHighlight | apps/api/src/services/reminderService.ts:194-208 | null iff nothing is eligible; otherwise the cosmic-serendipity id, title and tagline over the picks |
| Digest.Present | apps/api/src/services/reminderService.ts:229 | `filter(Boolean)` never lengthens the list; membership is Digest.PresentMembers and order Digest.PresentKeepsOrder |
| Digest.PresentMembers | apps/api/src/services/reminderService.ts:229 | `filter(Boolean)` keeps exactly the highlights that were built |
| Digest.PresentKeepsOrder | apps/api/src/services/reminderService.ts:224-229 | dropping the nulls keeps the highlights in their order |
| Digest.PresentFour | apps/api/src/services/reminderService.ts:224-229 | the digest lists the built highlights among the four candidates, in candidate order |
| Digest.NothingEligibleNoCandidates | apps/api/src/services/reminderService.ts:135-208 | with nothing eligible, all four builders return null |
| Digest.EmptyDigestIffNothingEligible | apps/api/src/services/reminderService.ts:224-229 | the digest has no highlight iff nothing is eligible; otherwise it opens with Fresh Sparks and ends with Cosmic Serendipity |
| Digest.RankedCandidates | apps/api/src/services/reminderService.ts:224-229 | the candidates come fresh, throwback, language, serendipity |
| Digest.DigestOrder | apps/api/src/services/reminderService.ts:224-229 | the highlights of a digest appear in strictly increasing candidate rank |
| Digest.DigestItemsFromEligible | apps/api/src/services/reminderService.ts:135-229 | every highlight has one to three items, each showing an eligible repository with a vibe from its group |
| Digest.BuildDigest | apps/api/src/services/reminderService.ts:224-235 | the digest of an eligible list; specified by Digest.EmptyDigestIffNothingEligible, Digest.DigestOrder and Digest.DigestItemsFromEligible |
| Digest.AllItems | apps/api/src/jobs/reminderJob.ts:44 | `flatMap`: an item is listed iff some highlight holds it |
| Digest.ReminderDigestFor | apps/api/src/services/reminderService.ts:210-236 | fails exactly when the fetch fails, with NoGithubToken when there is no token; a success has the digest title and the intro addressed to the username |
| Digest.DigestRequest | apps/api/src/services/reminderService.ts:211 | the digest fetch asks for 100 per page, page 1, created, desc |
| Digest.GenerateReminderDigest | apps/api/src/services/reminderService.ts:210-236 | the method, with its array sorts and bucket loop, equals the digest specification |
| CadenceGate.CadenceToDays | apps/api/src/services/reminderService.ts:238-240 | through the table of lines 41-46: 1, 7, 14 and 30 days for the four cadences, and 7 for any other string that is not an inherited property name of a plain object |
| CadenceGate.UnknownCadenceActsAsDefault | apps/api/src/services/reminderService.ts:238-240 | an unknown cadence (not an inherited property name) waits as long as WEEKLY, and as long as the cadence `presentUser` reports for it |
| CadenceGate.DueExamples | apps/api/src/services/reminderService.test.ts:16-69 | a WEEKLY user never sent, or sent 8 days ago, is due, one sent 2 days ago is not; exactly 7 days is due, 1 ms less is not |
| CadenceGate.DueIsMonotone | apps/api/src/services/reminderService.ts:242-250 | once due, a user stays due as time passes |
| CadenceGate.DueAgainAfterOnePeriod | apps/api/src/services/reminderService.ts:242-250 | after a send the user is due again exactly one cadence period later, and is not due at the moment of sending |
| Bookkeeping.Upsert | apps/api/src/services/reminderService.ts:266-293 | the key gets a row recording the item at `now`; an update without a star time keeps the old star date; every other key is untouched |
| Bookkeeping.UpsertAllLeavesOthers | apps/api/src/services/reminderService.ts:264-295 | rows of other users, and of repositories not in the list, are unchanged |
| Bookkeeping.UpsertAllRecordsLast | apps/api/src/services/reminderService.ts:264-295 | every listed repository ends with a row sent at `now`, holding the metadata of its last occurrence |
| Bookkeeping.ReminderStore.MarkDigestSent | apps/api/src/services/reminderService.ts:252-296 | a missing user changes nothing and is reported; otherwise last-sent becomes `now`, even for an empty list, and the reminder table becomes the upserts in order |
| EmailService.SendOutcomeFor | apps/api/src/services/emailService.ts:20-42 | skipped iff no API key; otherwise delivered or failed as the transport answers |
| EmailService.Mailer.SendReminderEmail | apps/api/src/services/emailService.ts:20-42 | the outcome as above, and the mail joins the outbox only when it is delivered |
| ReminderJob.Step | apps/api/src/jobs/reminderJob.ts:23-45 | one pass of the loop body; specified by the per-user lemmas that follow |
| ReminderJob.NoAddressNoEffect | apps/api/src/jobs/reminderJob.ts:24-26 | a user without a notification address is skipped with no effect |
| ReminderJob.NotDueNoEffect | apps/api/src/jobs/reminderJob.ts:28-30 | a user who is not due is skipped with no effect |
| ReminderJob.EmptyDigestNoEffect | apps/api/src/jobs/reminderJob.ts:32-36 | a user with no eligible repository gets no mail and is not marked |
| ReminderJob.SendFailureLeavesUnmarked | apps/api/src/jobs/reminderJob.ts:38-45 | a failed send aborts the run without marking the user or touching the reminder table |
| ReminderJob.SentUserIsMarked | apps/api/src/jobs/reminderJob.ts:38-45 | after a send (or a skipped send) the user is marked at `now` and every digest item is upserted |
| ReminderJob.RunJob | apps/api/src/jobs/reminderJob.ts:23-46 | the run over the queried users; specified by ReminderJob.AbortedStaysAborted, ReminderJob.AbortStops and ReminderJob.RunJobMail |
| ReminderJob.AbortedStaysAborted | apps/api/src/jobs/reminderJob.ts:23-46 | after an uncaught error the remaining users are not processed, whatever their digests and sends would give |
| ReminderJob.AbortStops | apps/api/src/jobs/reminderJob.ts:23-46 | users after an aborting prefix have no effect |
| ReminderJob.StepMail | apps/api/src/jobs/reminderJob.ts:23-46 | one user adds at most one mail, appended, addressed to that user's notification address, with a non-empty digest |
| ReminderJob.RunJobMail | apps/api/src/jobs/reminderJob.ts:15-46 | a run sends at most one mail per user, each to a listed user with an address and with a non-empty digest |
| ReminderJob.ProcessOne | apps/api/src/jobs/reminderJob.ts:24-45 | the loop body changes the store and the outbox exactly as the one-user specification says |
| ReminderJob.RunReminderJob | apps/api/src/jobs/reminderJob.ts:23-46 | the loop over the queried users leaves the store, the outbox and the abort flag exactly as the run specification says |
| SessionStore.StatusFor | apps/web/src/store/session.ts:36-43 | authenticated iff there is a user, unauthenticated iff there is none |
| SessionStore.Session.constructor | apps/web/src/store/session.ts:29-30 | the store starts with no user and status idle |
| SessionStore.Session.SetUser | apps/web/src/store/session.ts:42-44 | the user is replaced and the status follows it; the invariant holds |
| SessionStore.Session.ClearUser | apps/web/src/store/session.ts:45-47 | no user, unauthenticated |
| SessionStore.Session.BeginFetch | apps/web/src/store/session.ts:32 | the status becomes loading and the user is untouched |
| SessionStore.Session.CompleteFetch | apps/web/src/store/session.ts:33-40 | a response sets the user and its status; a failed request leaves no user, unauthenticated |
| SessionStore.Session.FetchUser | apps/web/src/store/session.ts:31-41 | ends authenticated iff the request succeeds with a user; on failure no user and unauthenticated; the invariant holds |
| SettingsForm.BuildInitialState | apps/web/src/routes/Settings.tsx:26-43 | the form read off the session user; specified by SettingsForm.NoUserForm, SettingsForm.InitialAddress and SettingsForm.LoadThenSave |
| SettingsForm.NoUserForm | apps/web/src/routes/Settings.tsx:26-42 | with no user the form is blank, WEEKLY, no star minimum, archived off |
| SettingsForm.InitialAddress | apps/web/src/routes/Settings.tsx:36 | the notification address, else the account address, else empty |
| SettingsForm.DropEmptyClean | apps/web/src/routes/Settings.tsx:68-69 | dropping the empty strings from trimmed, comma-free pieces leaves only non-empty items without surrounding whitespace |
| SettingsForm.ParseCommaList | apps/web/src/routes/Settings.tsx:66-73 | split, trim, drop the empty pieces; specified by SettingsForm.ParseCommaListClean, SettingsForm.ParseCommaListSplits and SettingsForm.ParseJoinRoundTrip |
| SettingsForm.ParseCommaListClean | apps/web/src/routes/Settings.tsx:66-73 | each parsed item is non-empty, has no surrounding whitespace and holds no comma |
| SettingsForm.ParseCommaListSplits | apps/web/src/routes/Settings.tsx:66-73 | the text on either side of a comma parses independently, so the items keep their left-to-right order |
| SettingsForm.ParseEmpty | apps/web/src/routes/Settings.tsx:66-69 | an empty field is the empty list |
| SettingsForm.ParseJoinRoundTrip | apps/web/src/routes/Settings.tsx:38-73 | a list of clean, comma-free items shown with ", " parses back to itself, the empty list included |
| SettingsForm.ListRoundTrip | apps/web/src/routes/Settings.tsx:38-73 | a stored list read into its field and saved comes back; an absent list comes back empty |
| SettingsForm.StarsFilter | apps/web/src/routes/Settings.tsx:74 | a blank field is undefined, a number is kept |
| SettingsForm.SubmittedFilters | apps/web/src/routes/Settings.tsx:65-76 | both lists are present and clean; the minimum is absent iff the field is blank; the archive flag is the checkbox |
| SettingsForm.LoadThenSave | apps/web/src/routes/Settings.tsx:26-76 | opening the form and saving it unchanged writes back the stored filters, absent lists as empty ones, an absent archive flag as false, any star minimum (zero included) kept |
| Text.Join | apps/web/src/routes/Settings.tsx:38 | `join(sep)`; specified by Text.SplitJoin and Text.SplitJoinsBack |
| Text.Split | apps/web/src/routes/Settings.tsx:67 | at least one piece, none holding the separator |
| Text.SplitJoinsBack | apps/web/src/routes/Settings.tsx:67 | joining the pieces with the separator gives the text back |
| Text.SplitJoin | apps/web/src/routes/Settings.tsx:67 | splitting a joined list of separator-free pieces gives the pieces back |
| Text.TrimStart | apps/web/src/routes/Settings.tsx:68 | a suffix of the input whose dropped prefix is all whitespace and which does not itself start with whitespace |
| Text.TrimEnd | apps/web/src/routes/Settings.tsx:68 | a prefix of the input whose dropped suffix is all whitespace and which does not itself end with whitespace |
| Text.Trim | apps/web/src/routes/Settings.tsx:68 | the result is empty or has no surrounding whitespace |
| Text.TrimIsSlice | apps/web/src/routes/Settings.tsx:68 | the result is one contiguous slice of the input, with only whitespace cut on either side |
| Text.TrimWrapped | apps/web/src/routes/Settings.tsx:68 | trimming a clean item between two runs of whitespace gives the item |
| Text.TrimKeepsCharacters | apps/web/src/routes/Settings.tsx:68 | trimming only removes characters: every character of the result is in the input |
| Text.TrimPadded | apps/web/src/routes/Settings.tsx:68 | trimming a clean item behind whitespace gives the item |
| Text.ToLower | apps/api/src/services/reminderService.ts:97-100 | same length, each character lower-cased (ASCII letters) |
| Text.LowerAllContains | apps/api/src/services/reminderService.ts:97-100 | a lower-cased list contains the lower-cased name iff some entry equals it ignoring case |

## Left out

- Network and database I/O are not modelled as such:
  - the axios GitHub request is a function from the request to a body or an error message;
  - token lookup is an optional token;
  - the Prisma tables are maps held by `ReminderStore`;
  - `prisma.user.findMany` is left out: the job takes the list it returns as its input;
  - the `$transaction` is the ordered list of upserts, and its atomicity is not modelled.
- The cron schedule is not modelled. Neither are the async/await machinery, logging, the HTML e-mail templates and the subject line.
- Each of `Date.now()` and `new Date()` is one parameter `now` per operation. In the source, successive calls can read different times.
- ISO date strings are not parsed: they are modelled as their millisecond values.
- `JSON.stringify` and `JSON.parse` are a codec passed in as parameters. No JSON grammar is modelled.
- `toLowerCase` is modelled on ASCII letters only. The source lower-cases all of Unicode.
- The model has no floating point. `minimumStars` is an integer here; in the source it can be any number.
- A stored filter value of the wrong type is not modelled: a non-array `languages`, or a non-boolean `includeArchived` (truthiness). Absent keys and the typed values are.
- The React component of the settings page is left out: its `useState`, the effect, the rendering and the PATCH request. Only its two conversions are modelled.
- `Math.random` is an oracle: a roll below 3 for each vibe, and a permutation for the shuffle.
  - Highlights.SerendipityPicksFacts: says nothing about the distribution. The comparator trick `sort(() => Math.random() - 0.5)` is not uniform, and the model does not claim it is.
  - DigestItems.PickVibe: the roll is any index below 3, with no distribution.
- Digest.Present: its own contract bounds only the length. Membership is in Digest.PresentMembers and order in Digest.PresentKeepsOrder.
- DigestItems.RepoName: `split('/')[1]` gives the second segment. So "a/b/c" is named "b" and "a/" is named "", as in the source; no lemma covers those cases.
- Two behaviours one might expect of this adapter are absent from the source; the model follows the code:
  - `fetchStarredRepositories` has no fallback to the public endpoint when the user has no token: it fails with "No GitHub token available";
  - it does not unwrap a `{starred_at, repo}` envelope: each element is read as the repository itself. An element without an `owner` object, as such an envelope is, makes `toStarredRepository` throw. The model has that element's `owner` as `None` and the fetch fails with `MissingOwner`; the digest and the job run then fail as for any fetch error. The model does not say which shape GitHub sends for the `star+json` media type.
- Other properties of the job loop:
  - a digest fetch that fails is not caught in the loop, so it ends the run, like a failed send;
  - `markDigestSent` on a user who no longer exists ends the run too, because `prisma.user.update` throws.
- CadenceGate.CadenceToDays: `cadenceDaysMap[c] ?? 7` on a string that names an inherited property of a plain object (`"constructor"`, `"toString"`, `"valueOf"`, …) yields that property, so the period is NaN and the user is never due. The model gives 7 for every string other than the four cadences. The source's `Cadence` type admits only the four.
- LanguageBuckets.GroupByLanguage: a language named after an inherited property (`"constructor"`, `"toString"`, …) finds a non-nullish `acc[language]` that has no `push`, so the source throws and the run ends. The model buckets it like any other name.
- LanguageBuckets.LanguageOrder: `Object.entries` lists integer-like keys (such as `"1"`) first, in ascending numeric order, and the other keys after them in insertion order. The model uses insertion order for every key, so LanguageBuckets.TopLanguageTieBreak describes the source only when no language name is integer-like.
