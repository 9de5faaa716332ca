/** The two conversions of the settings form: the stored user into the
    form's fields, and the submitted fields back into a filter object. */
module SettingsForm {
  import opened Wrappers
  import opened Text
  import opened UserFilters
  import opened CadenceDomain
  import opened SessionStore

  /** The `minimumStars` field: `''` or a number. */
  datatype StarsField = Blank | Stars(count: int)

  /** `PreferencesForm` */
  datatype PreferencesForm = PreferencesForm(
    notificationEmail: string,
    cadence: string,
    languages: string,
    topics: string,
    minimumStars: StarsField,
    includeArchived: bool)

  /** How a list is shown in its text field. */
  const LIST_SEPARATOR := ", "

  /** `Array.isArray(xs) ? xs.join(', ') : ''` */
  function ListText(items: Option<seq<string>>): string {
    if items.Some? then Join(items.value, LIST_SEPARATOR) else ""
  }

  /** `buildInitialState`: the filters of a missing user, or a null filter
      column, read as `{}`. */
  function BuildInitialState(user: Option<SessionUser>): PreferencesForm {
    var filters := if user.Some? then StoredFilters(user.value) else NoFilters;
    PreferencesForm(
      if user.Some? && user.value.notificationEmail.Some? then user.value.notificationEmail.value
      else if user.Some? && user.value.email.Some? then user.value.email.value
      else "",
      if user.Some? then user.value.cadence else DEFAULT_CADENCE,
      ListText(filters.languages),
      ListText(filters.topics),
      if filters.minimumStars.Some? then Stars(filters.minimumStars.value) else Blank,
      filters.includeArchived == Some(true))
  }

  /** The form for a missing user: every field blank, the default cadence. */
  lemma NoUserForm()
    ensures BuildInitialState(None) == PreferencesForm("", "WEEKLY", "", "", Blank, false)
  {
  }

  /** The address shown is the notification address, else the account
      address, else empty. */
  lemma InitialAddress(user: SessionUser)
    ensures user.notificationEmail.Some? ==> BuildInitialState(Some(user)).notificationEmail == user.notificationEmail.value
    ensures user.notificationEmail.None? && user.email.Some? ==> BuildInitialState(Some(user)).notificationEmail == user.email.value
    ensures user.notificationEmail.None? && user.email.None? ==> BuildInitialState(Some(user)).notificationEmail == ""
  {
  }

  /** `.map((item) => item.trim())` */
  function TrimAll(parts: seq<string>): (r: seq<string>)
    ensures |r| == |parts|
    ensures forall i :: 0 <= i < |parts| ==> r[i] == Trim(parts[i])
  {
    seq(|parts|, i requires 0 <= i < |parts| => Trim(parts[i]))
  }

  /** `.filter(Boolean)` on strings: the non-empty ones, in order. */
  function DropEmpty(parts: seq<string>): (r: seq<string>)
    ensures |r| <= |parts|
  {
    if parts == [] then []
    else
      var init := DropEmpty(parts[..|parts| - 1]);
      var last := parts[|parts| - 1];
      if last == [] then init else init + [last]
  }

  /** The text of a list field as submitted: the comma-separated pieces,
      trimmed, without the empty ones. */
  function ParseCommaList(s: string): seq<string> {
    DropEmpty(TrimAll(Split(s, ',')))
  }

  /** What every piece of a list satisfies: empty, or clean and comma-free. */
  predicate CleanOrEmpty(x: string) {
    x == [] || (IsCleanItem(x) && ',' !in x)
  }

  /** Dropping the empty pieces leaves the non-empty ones, so a list of clean
      or empty pieces becomes a list of clean ones. */
  lemma {:induction false} DropEmptyClean(parts: seq<string>)
    requires forall i :: 0 <= i < |parts| ==> CleanOrEmpty(parts[i])
    ensures forall i :: 0 <= i < |DropEmpty(parts)| ==> IsCleanItem(DropEmpty(parts)[i]) && ',' !in DropEmpty(parts)[i]
  {
    if parts != [] {
      DropEmptyClean(parts[..|parts| - 1]);
    }
  }

  /** Each submitted item is non-empty, has no surrounding whitespace and holds no comma. */
  lemma ParseCommaListClean(s: string)
    ensures forall i :: 0 <= i < |ParseCommaList(s)| ==> IsCleanItem(ParseCommaList(s)[i]) && ',' !in ParseCommaList(s)[i]
  {
    var pieces := Split(s, ',');
    var trimmed := TrimAll(pieces);
    forall i | 0 <= i < |trimmed|
      ensures CleanOrEmpty(trimmed[i])
    {
      TrimKeepsCharacters(pieces[i]);
      assert ',' !in pieces[i];
    }
    DropEmptyClean(trimmed);
  }

  lemma {:induction false} DropEmptyAppend(a: seq<string>, b: seq<string>)
    ensures DropEmpty(a + b) == DropEmpty(a) + DropEmpty(b)
    decreases |b|
  {
    if b == [] {
      assert a + b == a;
    } else {
      var init := b[..|b| - 1];
      assert (a + b)[..|a + b| - 1] == a + init;
      DropEmptyAppend(a, init);
    }
  }

  lemma TrimAllAppend(a: seq<string>, b: seq<string>)
    ensures TrimAll(a + b) == TrimAll(a) + TrimAll(b)
  {
  }

  /** A comma in the text cuts the pieces in two. */
  lemma SplitAtComma(a: string, b: string)
    ensures Split(a + "," + b, ',') == Split(a, ',') + Split(b, ',')
  {
    assert a + "," + b == a + [','] + b;
    SplitAtSeparator(a, b, ',');
  }

  /** The pieces on either side of a comma are parsed independently, so the
      items keep their left-to-right order. */
  lemma ParseCommaListSplits(a: string, b: string)
    ensures ParseCommaList(a + "," + b) == ParseCommaList(a) + ParseCommaList(b)
  {
    var pa, pb := Split(a, ','), Split(b, ',');
    SplitAtComma(a, b);
    TrimAllAppend(pa, pb);
    DropEmptyAppend(TrimAll(pa), TrimAll(pb));
  }

  /** The pieces `split(',')` cuts from a list shown with `join(', ')`: the
      first item, then every other item behind the space of the separator. */
  function ShownPieces(items: seq<string>): (pieces: seq<string>)
    requires |items| >= 1
    ensures |pieces| == |items| && pieces[0] == items[0]
    ensures forall k :: 1 <= k < |items| ==> pieces[k] == " " + items[k]
  {
    [items[0]] + seq(|items| - 1, k requires 0 <= k < |items| - 1 => " " + items[k + 1])
  }

  /** String regrouping for one separator. */
  lemma Regroup(x: string, rest: string)
    ensures x + "," + (" " + rest) == x + LIST_SEPARATOR + rest
  {
    assert x + "," + (" " + rest) == x + ("," + " ") + rest;
  }

  /** Joining the shown pieces with a bare comma gives the shown text. */
  lemma {:induction false} JoinShownPieces(items: seq<string>)
    requires |items| >= 1
    ensures Join(ShownPieces(items), ",") == Join(items, LIST_SEPARATOR)
    decreases |items|
  {
    if |items| >= 2 {
      var p, rest := ShownPieces(items), items[1..];
      JoinShownPieces(rest);
      var tail := Join(rest, LIST_SEPARATOR);
      // the pieces behind the first are those of `rest`, each behind a space
      assert Join(p[1..], ",") == " " + tail by {
        JoinSpaced(rest, p[1..]);
      }
      Regroup(items[0], tail);
    }
  }

  /** A list of pieces each behind a space joins to the joined list behind one space. */
  lemma {:induction false} JoinSpaced(items: seq<string>, spaced: seq<string>)
    requires |items| >= 1 && |spaced| == |items|
    requires forall k :: 0 <= k < |items| ==> spaced[k] == " " + items[k]
    ensures Join(spaced, ",") == " " + Join(items, LIST_SEPARATOR)
    decreases |items|
  {
    if |items| >= 2 {
      JoinSpaced(items[1..], spaced[1..]);
      var tail := Join(items[1..], LIST_SEPARATOR);
      Regroup(" " + items[0], tail);
      assert " " + items[0] + LIST_SEPARATOR + tail == " " + (items[0] + LIST_SEPARATOR + tail);
    }
  }

  /** A list of clean items is kept whole by `filter(Boolean)`. */
  lemma {:induction false} DropEmptyKeepsClean(items: seq<string>)
    requires forall i :: 0 <= i < |items| ==> items[i] != []
    ensures DropEmpty(items) == items
  {
    if items != [] {
      DropEmptyKeepsClean(items[..|items| - 1]);
      assert items[..|items| - 1] + [items[|items| - 1]] == items;
    }
  }

  /** Trimming the shown pieces gives the items back. */
  lemma TrimShownPieces(items: seq<string>)
    requires |items| >= 1
    requires forall i :: 0 <= i < |items| ==> IsCleanItem(items[i])
    ensures TrimAll(ShownPieces(items)) == items
  {
    var p := ShownPieces(items);
    forall k | 0 <= k < |items|
      ensures Trim(p[k]) == items[k]
    {
      if k == 0 {
        TrimPadded("", items[0]);
        assert "" + items[0] == items[0];
      } else {
        assert IsJsWhitespace(' ');
        TrimPadded(" ", items[k]);
      }
    }
  }

  /** Behind the first, each shown piece is a space and a comma-free item. */
  lemma ShownPiecesCommaFree(items: seq<string>)
    requires |items| >= 1
    requires forall i :: 0 <= i < |items| ==> ',' !in items[i]
    ensures forall k :: 0 <= k < |items| ==> ',' !in ShownPieces(items)[k]
  {
    var p := ShownPieces(items);
    forall k | 0 <= k < |p|
      ensures ',' !in p[k]
    {
      if k > 0 {
        assert p[k] == [' '] + items[k];
      }
    }
  }

  /** `split(',')` of the shown text cuts exactly the shown pieces. */
  lemma SplitShownText(items: seq<string>)
    requires |items| >= 1
    requires forall i :: 0 <= i < |items| ==> ',' !in items[i]
    ensures Split(Join(items, LIST_SEPARATOR), ',') == ShownPieces(items)
  {
    JoinShownPieces(items);
    ShownPiecesCommaFree(items);
    SplitJoin(ShownPieces(items), ',');
  }

  /** A non-empty list shown in its field parses back to itself. */
  lemma ParseJoinNonEmpty(items: seq<string>)
    requires |items| >= 1
    requires forall i :: 0 <= i < |items| ==> IsCleanItem(items[i]) && ',' !in items[i]
    ensures ParseCommaList(Join(items, LIST_SEPARATOR)) == items
  {
    SplitShownText(items);
    TrimShownPieces(items);
    DropEmptyKeepsClean(items);
  }

  /** An empty field is the empty list. */
  lemma ParseEmpty()
    ensures ParseCommaList("") == []
  {
    assert Split("", ',') == [""];
    assert Trim("") == "";
    assert TrimAll([""]) == [""];
    assert DropEmpty([""]) == [];
  }

  /** Load then save: every list of clean, comma-free items survives being
      shown in its field and parsed back, the empty list included. */
  lemma ParseJoinRoundTrip(items: seq<string>)
    requires forall i :: 0 <= i < |items| ==> IsCleanItem(items[i]) && ',' !in items[i]
    ensures ParseCommaList(Join(items, LIST_SEPARATOR)) == items
  {
    if items == [] {
      ParseEmpty();
    } else {
      ParseJoinNonEmpty(items);
    }
  }

  /** `form.minimumStars === '' ? undefined : Number(form.minimumStars)` */
  function StarsFilter(field: StarsField): (stars: Option<int>)
    ensures stars.None? <==> field == Blank
    ensures field.Stars? ==> stars == Some(field.count)
  {
    if field.Blank? then None else Some(field.count)
  }

  /** The `filters` object `handleSubmit` sends. */
  function SubmittedFilters(form: PreferencesForm): (f: Filters)
    ensures f.languages.Some? && f.topics.Some?
    ensures forall i :: 0 <= i < |f.languages.value| ==> IsCleanItem(f.languages.value[i])
    ensures forall i :: 0 <= i < |f.topics.value| ==> IsCleanItem(f.topics.value[i])
    ensures f.minimumStars.None? <==> form.minimumStars == Blank
    ensures f.includeArchived == Some(form.includeArchived)
  {
    ParseCommaListClean(form.languages);
    ParseCommaListClean(form.topics);
    Filters(
      Some(ParseCommaList(form.languages)),
      Some(ParseCommaList(form.topics)),
      StarsFilter(form.minimumStars),
      Some(form.includeArchived))
  }

  predicate CleanList(items: Option<seq<string>>) {
    items.None? || forall i :: 0 <= i < |items.value| ==> IsCleanItem(items.value[i]) && ',' !in items.value[i]
  }

  /** A stored list, shown in its field and parsed back: an absent list
      comes back empty. */
  lemma ListRoundTrip(items: Option<seq<string>>)
    requires CleanList(items)
    ensures ParseCommaList(ListText(items)) == items.GetOr([])
  {
    if items.None? {
      ParseEmpty();
    } else {
      ParseJoinRoundTrip(items.value);
    }
  }

  /** The stored filters a user's form is built from. */
  function StoredFilters(user: SessionUser): Filters {
    if user.filters.Some? then user.filters.value else NoFilters
  }

  /** The filter fields of a user's initial form. */
  lemma InitialFilterFields(user: SessionUser)
    ensures var form, f := BuildInitialState(Some(user)), StoredFilters(user);
      && form.languages == ListText(f.languages)
      && form.topics == ListText(f.topics)
      && StarsFilter(form.minimumStars) == f.minimumStars
      && form.includeArchived == (f.includeArchived == Some(true))
  {
  }

  /** The submitted filters, given what the two list fields parse to. */
  lemma SubmittedFields(form: PreferencesForm, languages: seq<string>, topics: seq<string>)
    requires ParseCommaList(form.languages) == languages
    requires ParseCommaList(form.topics) == topics
    ensures SubmittedFilters(form) == Filters(Some(languages), Some(topics), StarsFilter(form.minimumStars), Some(form.includeArchived))
  {
  }

  /** Opening the form and saving it unchanged writes back the stored
      filters, with every absent key made explicit: no list is an empty list,
      no archive flag is `false`; a star minimum, zero included, is kept. */
  lemma LoadThenSave(user: SessionUser)
    requires CleanList(StoredFilters(user).languages) && CleanList(StoredFilters(user).topics)
    ensures var f := StoredFilters(user);
      SubmittedFilters(BuildInitialState(Some(user))) == Filters(
        Some(f.languages.GetOr([])),
        Some(f.topics.GetOr([])),
        f.minimumStars,
        Some(f.includeArchived == Some(true)))
  {
    var f := StoredFilters(user);
    var form := BuildInitialState(Some(user));
    InitialFilterFields(user);
    ListRoundTrip(f.languages);
    ListRoundTrip(f.topics);
    SubmittedFields(form, f.languages.GetOr([]), f.topics.GetOr([]));
  }
}
