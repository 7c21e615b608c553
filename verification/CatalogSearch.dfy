/** Search: the statement's restrictions on the side tables select exactly the files whose stored
    metadata matches, the path prefix is a byte range, and pages follow the identifiers. */
module CatalogSearch {
  import opened Wrappers
  import opened Keyset
  import opened CatalogModel
  import opened CatalogInvariants
  import opened CatalogRuns
  import ByteOrder


  /** A normalised filter: its keywords are folded. */
  datatype Filter = Filter(
    text: string, pathPrefix: string,
    minimumRating: Option<nat>, maximumRating: Option<nat>, minimumSize: Option<nat>, maximumSize: Option<nat>,
    allKeywords: seq<string>, anyKeywords: seq<string>, collections: seq<string>, colors: seq<nat>, fields: map<string, string>)

  datatype Cursor = Cursor(catalog: string, revision: nat, filter: Filter, after: int)

  datatype Page = Page(files: seq<nat>, next: Option<Cursor>)

  predicate InRange(n: nat, minimum: Option<nat>, maximum: Option<nat>) {
    (minimum.Some? ==> minimum.value <= n) && (maximum.Some? ==> n <= maximum.value)
  }

  // ----- What a filter means: the stored metadata alone

  /** The file is the prefix itself or lies below it. */
  predicate Below(path: string, prefix: string) {
    prefix == "" || path == prefix || prefix + "/" <= path
  }

  /** `found` is the full-text match on a file's searchable text. */
  ghost predicate Matches(env: Env, found: (string, SearchText) -> bool, f: Filter, row: Row, metadata: Metadata) {
    && (f.text != "" ==> found(f.text, TextOf(row.path, metadata)))
    && Below(row.path, f.pathPrefix)
    && InRange(metadata.rating, f.minimumRating, f.maximumRating) && InRange(row.size, f.minimumSize, f.maximumSize)
    && (forall w :: w in f.allKeywords ==> w in Terms(env, metadata))
    && (f.anyKeywords != [] ==> exists w :: w in f.anyKeywords && w in Terms(env, metadata))
    && (f.collections != [] ==> exists c :: c in f.collections && c in metadata.collections)
    && (f.colors != [] ==> metadata.color in f.colors)
    && (forall n :: n in f.fields ==> n in metadata.fields && metadata.fields[n] == f.fields[n])
  }

  ghost function MatchingIds(env: Env, found: (string, SearchText) -> bool, t: Tables, f: Filter): set<nat> {
    set k | k in t.files && Matches(env, found, f, t.files[k], MetadataOf(t, t.files[k])) :: t.files[k].id
  }

  // ----- What the statement asks: columns and side tables

  /** `path=? OR (path>=? AND path<?)`. */
  predicate InPathRange(path: string, prefix: string) {
    prefix == "" || path == prefix || (!ByteOrder.Less(path, prefix + "/") && ByteOrder.Less(path, prefix + "0"))
  }

  lemma PathRangeIsBelow(path: string, prefix: string)
    ensures InPathRange(path, prefix) <==> Below(path, prefix)
  {
    ByteOrder.PrefixRange(prefix, '/', '0', path);
  }

  predicate Selected(found: (string, SearchText) -> bool, t: Tables, f: Filter, row: Row) {
    && (f.text != "" ==> row.id in t.text && found(f.text, t.text[row.id]))
    && InPathRange(row.path, f.pathPrefix)
    && InRange(row.rating, f.minimumRating, f.maximumRating) && InRange(row.size, f.minimumSize, f.maximumSize)
    && (forall w :: w in f.allKeywords ==> Keyword(row.id, w) in t.keywords)
    && (f.anyKeywords != [] ==> exists w :: w in f.anyKeywords && Keyword(row.id, w) in t.keywords)
    && (f.collections != [] ==> exists c :: c in f.collections && Member(row.id, c) in t.members)
    && (f.colors != [] ==> row.color in f.colors)
    && (forall n :: n in f.fields ==> FieldName(row.id, n) in t.fields && t.fields[FieldName(row.id, n)] == f.fields[n])
  }

  /** On tables that agree, the statement selects by the stored metadata. */
  lemma SelectedIsMatching(env: Env, found: (string, SearchText) -> bool, t: Tables, f: Filter, row: Row)
    requires SideTablesAgree(env, t, row)
    ensures Selected(found, t, f, row) <==> Matches(env, found, f, row, MetadataOf(t, row))
  {
    hide InPathRange, Below, InRange;
    var metadata := MetadataOf(t, row);
    PathRangeIsBelow(row.path, f.pathPrefix);
    assert TextOf(row.path, metadata) == TextOf(row.path, row.stored) && Terms(env, metadata) == Terms(env, row.stored);
    forall c
      ensures c in metadata.collections <==> Member(row.id, c) in t.members
    {
      MemberOf(t, row, c);
    }
  }

  method Select(env: Env, found: (string, SearchText) -> bool, t: Tables, f: Filter, after: int) returns (ids: set<nat>)
    requires Tidy(env, t)
    ensures ids == Later(MatchingIds(env, found, t, f), after)
  {
    hide Selected, Matches, SideTablesAgree, RowsApart;
    ids := set k | k in t.files && t.files[k].id > after && Selected(found, t, f, t.files[k]) :: t.files[k].id;
    forall k | k in t.files
      ensures Selected(found, t, f, t.files[k]) <==> Matches(env, found, f, t.files[k], MetadataOf(t, t.files[k]))
    {
      SelectedIsMatching(env, found, t, f, t.files[k]);
    }
  }

  // ----- Pages

  predicate CursorAccepted(catalog: string, t: Tables, f: Filter, cursor: Option<Cursor>) {
    cursor.Some? ==> cursor.value.catalog == catalog && cursor.value.revision == t.revision && cursor.value.filter == f && cursor.value.after >= 0
  }

  /** The page holds the first matches after the cursor, and a cursor exactly when more follow. */
  ghost predicate IsPage(env: Env, found: (string, SearchText) -> bool, catalog: string, t: Tables, f: Filter, after: int, limit: nat, page: Page) {
    var later := Later(MatchingIds(env, found, t, f), after);
    && FirstOf(later, limit, page.files)
    && (page.next.None? ==> forall k :: k in later ==> k in page.files)
    && (page.next.Some? ==>
      && page.files != [] && page.next.value == Cursor(catalog, t.revision, f, page.files[|page.files| - 1])
      && exists k :: k in later && k !in page.files)
  }

  method Search(env: Env, found: (string, SearchText) -> bool, catalog: string, t: Tables, f: Filter, cursor: Option<Cursor>, limit: nat)
    returns (page: Option<Page>)
    requires Tidy(env, t)
    ensures page.Some? <==> 1 <= limit <= MAXIMUM_PAGE && CursorAccepted(catalog, t, f, cursor)
    ensures page.Some? ==> IsPage(env, found, catalog, t, f, if cursor.Some? then cursor.value.after else 0, limit, page.value)
  {
    hide Tidy, MatchingIds;
    if limit == 0 || limit > MAXIMUM_PAGE || !CursorAccepted(catalog, t, f, cursor) {
      return None;
    }
    var after := if cursor.Some? then cursor.value.after else 0;
    var ids := Select(env, found, t, f, after);
    var files := FirstKeys(ids, limit + 1);
    var next := None;
    if |files| > limit {
      FirstOfPrefix(ids, limit, files);
      files := files[..limit];
      next := Some(Cursor(catalog, t.revision, f, files[limit - 1]));
    }
    return Some(Page(files, next));
  }

  /** Following the cursors on an unchanged catalog gives every match once, ascending. */
  method SearchAll(env: Env, found: (string, SearchText) -> bool, catalog: string, t: Tables, f: Filter, limit: nat) returns (all: seq<nat>)
    requires Tidy(env, t) && 1 <= limit <= MAXIMUM_PAGE
    ensures Ascending(all)
    ensures forall k :: k in all <==> k in MatchingIds(env, found, t, f)
  {
    ghost var matching := MatchingIds(env, found, t, f);
    PositiveIds(env, found, t, f);
    hide Tidy, MatchingIds, FirstOf, Later, Ascending;
    var cursor: Option<Cursor> := None;
    all := [];
    ghost var after := 0;
    NothingListed(matching);
    while true
      invariant CursorAccepted(catalog, t, f, cursor) && after == (if cursor.Some? then cursor.value.after else 0)
      invariant Listed(matching, all, after)
      decreases |Later(matching, after)|
    {
      var page := Search(env, found, catalog, t, f, cursor, limit);
      ghost var files := page.value.files;
      if page.value.next.None? {
        ListedAll(matching, all, after, limit, files);
        all := all + page.value.files;
        return;
      }
      ListedNext(matching, all, after, limit, files);
      all := all + page.value.files;
      cursor, after := page.value.next, files[|files| - 1];
    }
  }

  lemma PositiveIds(env: Env, found: (string, SearchText) -> bool, t: Tables, f: Filter)
    requires Tidy(env, t)
    ensures forall k :: k in MatchingIds(env, found, t, f) ==> k > 0
  {
    hide SideTablesAgree, Matches;
  }

  /** A cursor's revision is honest: as long as the catalog revision stands, so does every answer. */
  lemma VersionDeterminesAnswers(env: Env, found: (string, SearchText) -> bool, states: seq<World>, events: seq<Event>, i: nat, j: nat, f: Filter)
    requires Run(env, states, events) && i <= j < |states| && states[i].tables.revision == states[j].tables.revision
    ensures MatchingIds(env, found, states[j].tables, f) == MatchingIds(env, found, states[i].tables, f)
  {
    hide Run, Matches;
    VersionDeterminesRows(env, states, events, i, j);
    forall k | k in states[i].tables.files
      ensures MetadataOf(states[j].tables, states[i].tables.files[k]) == MetadataOf(states[i].tables, states[i].tables.files[k])
    {
    }
  }
}
