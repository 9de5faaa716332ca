/** `markDigestSent`: the user's last-sent time and the reminder table keyed
    by user and repository id. The database is two maps held by a store
    object; the transaction is the loop over the items. */
module Bookkeeping {
  import opened Wrappers
  import opened GithubService
  import opened Accounts
  import opened DigestItems

  /** `userId_repoId` */
  datatype ReminderKey = ReminderKey(userId: UserId, repoId: int)

  /** A row of the reminder table. */
  datatype Reminder = Reminder(
    userId: UserId, repoId: int, repoFullName: string, repoDescription: Option<string>,
    starDate: Option<int>, topics: seq<string>, language: Option<string>, htmlUrl: string,
    lastSentAt: int)

  function KeyOf(userId: UserId, item: DigestRepoItem): ReminderKey {
    ReminderKey(userId, item.id)
  }

  /** The row records `item` as sent at `now`; a missing star time leaves
      the star date as it was (`undefined` in an update writes nothing). */
  predicate Records(row: Reminder, userId: UserId, item: DigestRepoItem, now: int, previous: Option<Reminder>) {
    && row.userId == userId && row.repoId == item.id
    && row.repoFullName == item.fullName && row.repoDescription == item.description
    && row.topics == item.topics && row.language == item.language && row.htmlUrl == item.htmlUrl
    && row.lastSentAt == now
    && row.starDate == (if item.starredAt.Some? then item.starredAt
                        else if previous.Some? then previous.value.starDate else None)
  }

  /** One `upsert`: the `create` branch when there is no row, else the `update` branch. */
  function Upsert(table: map<ReminderKey, Reminder>, userId: UserId, item: DigestRepoItem, now: int): (t: map<ReminderKey, Reminder>)
    ensures KeyOf(userId, item) in t
    ensures Records(t[KeyOf(userId, item)], userId, item, now,
      if KeyOf(userId, item) in table then Some(table[KeyOf(userId, item)]) else None)
    ensures forall k :: k != KeyOf(userId, item) ==> (k in t <==> k in table) && (k in table ==> t[k] == table[k])
  {
    var key := KeyOf(userId, item);
    var row :=
      if key in table then
        var prior := table[key];
        Reminder(userId, item.id, item.fullName, item.description,
          if item.starredAt.Some? then item.starredAt else prior.starDate,
          item.topics, item.language, item.htmlUrl, now)
      else
        Reminder(userId, item.id, item.fullName, item.description, item.starredAt,
          item.topics, item.language, item.htmlUrl, now);
    table[key := row]
  }

  /** The upserts of the transaction, applied in list order. */
  function UpsertAll(table: map<ReminderKey, Reminder>, userId: UserId, items: seq<DigestRepoItem>, now: int): map<ReminderKey, Reminder> {
    if items == [] then table
    else Upsert(UpsertAll(table, userId, items[..|items| - 1], now), userId, items[|items| - 1], now)
  }

  /** Rows of other users, and of repositories not in the list, are left alone. */
  lemma {:induction false} UpsertAllLeavesOthers(
    table: map<ReminderKey, Reminder>, userId: UserId, items: seq<DigestRepoItem>, now: int, k: ReminderKey)
    requires k.userId != userId || forall item :: item in items ==> item.id != k.repoId
    ensures var t := UpsertAll(table, userId, items, now);
      (k in t <==> k in table) && (k in table ==> t[k] == table[k])
  {
    if items != [] {
      var init := items[..|items| - 1];
      assert forall item :: item in init ==> item in items;
      UpsertAllLeavesOthers(table, userId, init, now, k);
      assert items[|items| - 1] in items;
    }
  }

  /** Every repository of the list gets a row sent at `now`, holding the
      metadata of its last occurrence in the list. */
  lemma {:induction false} UpsertAllRecordsLast(
    table: map<ReminderKey, Reminder>, userId: UserId, items: seq<DigestRepoItem>, now: int, i: nat)
    requires i < |items|
    requires forall j :: i < j < |items| ==> items[j].id != items[i].id
    ensures var t := UpsertAll(table, userId, items, now);
      && KeyOf(userId, items[i]) in t
      && var row := t[KeyOf(userId, items[i])];
      && row.lastSentAt == now && row.repoFullName == items[i].fullName
      && row.repoDescription == items[i].description && row.topics == items[i].topics
      && row.language == items[i].language && row.htmlUrl == items[i].htmlUrl
      && (items[i].starredAt.Some? ==> row.starDate == items[i].starredAt)
  {
    var n := |items| - 1;
    var init := items[..n];
    if i < n {
      UpsertAllRecordsLast(table, userId, init, now, i);
      assert items[i] == init[i];
      assert KeyOf(userId, items[n]) != KeyOf(userId, items[i]);
    }
  }

  /** The database: user rows and reminder rows. */
  class ReminderStore {
    var users: map<UserId, User>
    var reminders: map<ReminderKey, Reminder>

    constructor (users: map<UserId, User>, reminders: map<ReminderKey, Reminder>)
      ensures this.users == users && this.reminders == reminders
    {
      this.users := users;
      this.reminders := reminders;
    }

    /** `markDigestSent`. `prisma.user.update` fails on a missing user: then
        `found` is false and nothing is written. Otherwise the last-sent time
        becomes `now`, also for an empty list, and every item is upserted. */
    method MarkDigestSent(userId: UserId, repos: seq<DigestRepoItem>, now: int) returns (found: bool)
      modifies this
      ensures found == (userId in old(users))
      ensures !found ==> users == old(users) && reminders == old(reminders)
      ensures found ==> users == old(users)[userId := old(users)[userId].(lastDigestSentAt := Some(now))]
      ensures found ==> reminders == UpsertAll(old(reminders), userId, repos, now)
    {
      if userId !in users {
        return false;
      }
      found := true;
      users := users[userId := users[userId].(lastDigestSentAt := Some(now))];
      if |repos| == 0 {
        return;
      }
      var i := 0;
      while i < |repos|
        invariant 0 <= i <= |repos|
        invariant users == old(users)[userId := old(users)[userId].(lastDigestSentAt := Some(now))]
        invariant reminders == UpsertAll(old(reminders), userId, repos[..i], now)
      {
        assert repos[..i + 1][..i] == repos[..i];
        reminders := Upsert(reminders, userId, repos[i], now);
        i := i + 1;
      }
      assert repos[..|repos|] == repos;
    }
  }
}
