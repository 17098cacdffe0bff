/** Mesh composition: exposed names and URIs, routing them back, and failure-isolated paging. */
module Mesh {
  import opened Text

  const SEPARATOR: string := "__"
  const SCHEME: string := "mcpose://"
  const MAX_PAGES: nat := 100

  // ---- Backend keys ----

  predicate IsAlnum(c: char) {
    'A' <= c <= 'Z' || 'a' <= c <= 'z' || IsDigit(c)
  }

  predicate IsKeyChar(c: char) {
    IsAlnum(c) || c == '.' || c == '_' || c == '-'
  }

  predicate HasSeparator(s: string) {
    exists i | 0 <= i < |s| - 1 :: s[i] == '_' && s[i + 1] == '_'
  }

  /** What normalizeBackends lets through. */
  predicate ValidKey(key: string) {
    && key != "" && !HasSeparator(key) && IsAlnum(key[0])
    && forall i | 0 <= i < |key| :: IsKeyChar(key[i])
  }

  // ---- Searching ----

  /** The first place from i on where a separator starts, or None. */
  function IndexOfSeparator(s: string, i: nat): (r: Option<nat>)
    requires i <= |s|
    ensures r.Some? ==> i <= r.value && r.value + 2 <= |s| && s[r.value] == '_' && s[r.value + 1] == '_'
    ensures r.Some? ==> forall j | i <= j < r.value :: !(s[j] == '_' && s[j + 1] == '_')
    ensures r.None? ==> forall j | i <= j < |s| - 1 :: !(s[j] == '_' && s[j + 1] == '_')
    decreases |s| - i
  {
    if i + 2 > |s| then None
    else if s[i] == '_' && s[i + 1] == '_' then Some(i)
    else IndexOfSeparator(s, i + 1)
  }

  /** The first slash from i on, or None. */
  function IndexOfSlash(s: string, i: nat): (r: Option<nat>)
    requires i <= |s|
    ensures r.Some? ==> i <= r.value < |s| && s[r.value] == '/' && forall j | i <= j < r.value :: s[j] != '/'
    ensures r.None? ==> forall j | i <= j < |s| :: s[j] != '/'
    decreases |s| - i
  {
    if i == |s| then None else if s[i] == '/' then Some(i) else IndexOfSlash(s, i + 1)
  }

  // ---- Names ----

  function NamespaceName(key: string, name: string): string {
    key + SEPARATOR + name
  }

  /** The backend key and upstream name an exposed name routes to, or None. */
  function RouteNamespaced(name: string, keys: set<string>): Option<(string, string)> {
    var at := IndexOfSeparator(name, 0);
    if at.None? || at.value == 0 then None
    else if name[..at.value] !in keys || name[at.value + 2..] == "" then None
    else Some((name[..at.value], name[at.value + 2..]))
  }

  /** A key that does not end in an underscore is the part before the first separator. */
  lemma SeparatorAfterKey(key: string, name: string)
    requires ValidKey(key)
    ensures IndexOfSeparator(NamespaceName(key, name), 0)
         == Some(if key[|key| - 1] == '_' then |key| - 1 else |key|)
  {
    var s := NamespaceName(key, name);
    assert s[|key|] == '_' && s[|key| + 1] == '_';
    assert forall j | 0 <= j < |key| :: s[j] == key[j];
  }

  /**
   Routing undoes namespacing, for a configured key, exactly when the key does not end in an underscore
   and the name is not empty.
   */
  lemma RouteUndoesNamespace(key: string, name: string, keys: set<string>)
    requires ValidKey(key) && key in keys
    ensures RouteNamespaced(NamespaceName(key, name), keys) == Some((key, name))
       <==> key[|key| - 1] != '_' && name != ""
  {
    var s := NamespaceName(key, name);
    SeparatorAfterKey(key, name);
    assert s[..|key|] == key && s[|key| + 2..] == name;
  }

  /** Two configured backends can expose one name, and the first separator then picks the other one. */
  lemma KeyEndingInUnderscoreIsAmbiguous(key: string, name: string, keys: set<string>)
    requires ValidKey(key) && ValidKey(key + "_") && key in keys
    ensures NamespaceName(key + "_", name) == NamespaceName(key, "_" + name)
    ensures RouteNamespaced(NamespaceName(key + "_", name), keys) == Some((key, "_" + name))
  {
    var s := NamespaceName(key, "_" + name);
    assert NamespaceName(key + "_", name) == s;
    var longer := key + "_";
    assert longer[|key| - 1] == key[|key| - 1] && longer[|key|] == '_';
    assert key[|key| - 1] != '_';
    RouteUndoesNamespace(key, "_" + name, keys);
  }

  /** Names that route are names some configured key exposes. */
  lemma RoutedWasNamespaced(name: string, keys: set<string>)
    requires RouteNamespaced(name, keys).Some?
    ensures var (key, upstream) := RouteNamespaced(name, keys).value;
            && key in keys && upstream != "" && NamespaceName(key, upstream) == name
            && name == key + "__" + upstream && forall j | 0 <= j < |key| :: !(name[j] == '_' && name[j + 1] == '_')
  {
  }

  // ---- Resource URIs ----

  function NamespaceUri(key: string, uri: string): string {
    SCHEME + key + "/" + uri
  }

  function RouteResourceUri(uri: string, keys: set<string>): Option<(string, string)> {
    if !StartsWith(uri, SCHEME) then None
    else
      var rest := uri[|SCHEME|..];
      var slash := IndexOfSlash(rest, 0);
      if slash.None? || slash.value == 0 then None
      else if rest[..slash.value] !in keys || rest[slash.value + 1..] == "" then None
      else Some((rest[..slash.value], rest[slash.value + 1..]))
  }

  /** Routing undoes the resource form for every configured key, exactly when the URI is not empty. */
  lemma RouteUndoesUri(key: string, uri: string, keys: set<string>)
    requires ValidKey(key) && key in keys
    ensures RouteResourceUri(NamespaceUri(key, uri), keys) == Some((key, uri)) <==> uri != ""
  {
    var s := NamespaceUri(key, uri);
    var rest := key + "/" + uri;
    assert s == SCHEME + rest;
    assert s[..|SCHEME|] == SCHEME && s[|SCHEME|..] == rest;
    assert rest[|key|] == '/' && forall j | 0 <= j < |key| :: rest[j] == key[j];
    assert forall j | 0 <= j < |key| :: IsKeyChar(key[j]);
    assert IndexOfSlash(rest, 0) == Some(|key|);
    assert rest[..|key|] == key && rest[|key| + 1..] == uri;
  }

  /** Resource forms that route are those of a configured key, which ends at the first slash. */
  lemma RoutedUriWasNamespaced(uri: string, keys: set<string>)
    requires RouteResourceUri(uri, keys).Some?
    ensures var (key, upstream) := RouteResourceUri(uri, keys).value;
            key in keys && '/' !in key && upstream != "" && uri == "mcpose://" + key + "/" + upstream
  {
    var (key, upstream) := RouteResourceUri(uri, keys).value;
    var rest := uri[|SCHEME|..];
    assert uri == SCHEME + rest && rest == key + "/" + upstream;
    assert forall j | 0 <= j < |key| :: key[j] == rest[j];
  }

  // ---- Paging ----

  datatype Page<+Item> = Page(items: seq<Item>, next: Option<string>)

  datatype Answer<+Item> = Answered(page: Page<Item>) | Threw(reason: string)

  /** A backend's answer to its page request with this number, under this cursor. */
  type Lister<!Item> = (nat, Option<string>) -> Answer<Item>

  /** How an item is exposed under a backend key. */
  type Expose<!Item> = (string, Item) -> Item

  datatype Listing<+Item> = Listed(items: seq<Item>) | Failed(reason: string)

  function NeverEnds(key: string): string {
    "mcpose: backend \"" + key + "\" did not finish paginating within " + NatText(MAX_PAGES) + " pages"
  }

  function Exposed<Item>(expose: Expose<Item>, key: string, items: seq<Item>): (r: seq<Item>)
    ensures |r| == |items|
  {
    seq(|items|, i requires 0 <= i < |items| => expose(key, items[i]))
  }

  /** What comes before a listing joins it, unless it fails. */
  function Joined<Item>(before: seq<Item>, rest: Listing<Item>): Listing<Item> {
    match rest
    case Failed(reason) => Failed(reason)
    case Listed(items) => Listed(before + items)
  }

  /** The exposed items of a backend's pages from one on, up to the bound. */
  function Drained<Item>(expose: Expose<Item>, key: string, list: Lister<Item>, page: nat,
      cursor: Option<string>): Listing<Item>
    decreases MAX_PAGES - page
  {
    if page >= MAX_PAGES then Failed(NeverEnds(key))
    else
      match list(page, cursor)
      case Threw(reason) => Failed(reason)
      case Answered(p) =>
        var own := Exposed(expose, key, p.items);
        if p.next.None? then Listed(own) else Joined(own, Drained(expose, key, list, page + 1, p.next))
  }

  /** The answer k requests further on, or None when the walk ends before it. */
  function AnswerAt<Item>(list: Lister<Item>, page: nat, cursor: Option<string>, k: nat): Option<Answer<Item>>
    decreases k
  {
    var answer := list(page, cursor);
    if k == 0 then Some(answer)
    else if answer.Threw? || answer.page.next.None? then None
    else AnswerAt(list, page + 1, answer.page.next, k - 1)
  }

  predicate EndsAt<Item>(list: Lister<Item>, page: nat, cursor: Option<string>, k: nat) {
    var answer := AnswerAt(list, page, cursor, k);
    answer.Some? && answer.value.Answered? && answer.value.page.next.None?
  }

  predicate ThrowsAt<Item>(list: Lister<Item>, page: nat, cursor: Option<string>, k: nat, reason: string) {
    var answer := AnswerAt(list, page, cursor, k);
    answer.Some? && answer.value == Threw(reason)
  }

  predicate EndsWithin<Item>(list: Lister<Item>, page: nat, cursor: Option<string>, left: nat) {
    exists k | 0 <= k < left :: EndsAt(list, page, cursor, k)
  }

  predicate ThrowsWithin<Item>(list: Lister<Item>, page: nat, cursor: Option<string>, left: nat, reason: string) {
    exists k | 0 <= k < left :: ThrowsAt(list, page, cursor, k, reason)
  }

  lemma OneLater<Item>(list: Lister<Item>, page: nat, cursor: Option<string>, k: nat, reason: string)
    requires list(page, cursor).Answered? && list(page, cursor).page.next.Some?
    ensures EndsAt(list, page, cursor, k + 1) <==> EndsAt(list, page + 1, list(page, cursor).page.next, k)
    ensures ThrowsAt(list, page, cursor, k + 1, reason)
       <==> ThrowsAt(list, page + 1, list(page, cursor).page.next, k, reason)
    ensures !EndsAt(list, page, cursor, 0) && !ThrowsAt(list, page, cursor, 0, reason)
  {
  }

  lemma EndsLater<Item>(list: Lister<Item>, page: nat, cursor: Option<string>, left: nat)
    requires left > 0 && list(page, cursor).Answered? && list(page, cursor).page.next.Some?
    ensures EndsWithin(list, page, cursor, left)
       <==> EndsWithin(list, page + 1, list(page, cursor).page.next, left - 1)
  {
    var next := list(page, cursor).page.next;
    if EndsWithin(list, page, cursor, left) {
      var k :| 0 <= k < left && EndsAt(list, page, cursor, k);
      OneLater(list, page, cursor, if k > 0 then k - 1 else 0, "");
      assert EndsAt(list, page + 1, next, k - 1);
    }
    if EndsWithin(list, page + 1, next, left - 1) {
      var k :| 0 <= k < left - 1 && EndsAt(list, page + 1, next, k);
      OneLater(list, page, cursor, k, "");
    }
  }

  lemma ThrowsLater<Item>(list: Lister<Item>, page: nat, cursor: Option<string>, left: nat, reason: string)
    requires left > 0 && list(page, cursor).Answered? && list(page, cursor).page.next.Some?
    ensures ThrowsWithin(list, page, cursor, left, reason)
       <==> ThrowsWithin(list, page + 1, list(page, cursor).page.next, left - 1, reason)
  {
    var next := list(page, cursor).page.next;
    if ThrowsWithin(list, page, cursor, left, reason) {
      var k :| 0 <= k < left && ThrowsAt(list, page, cursor, k, reason);
      OneLater(list, page, cursor, if k > 0 then k - 1 else 0, reason);
      assert ThrowsAt(list, page + 1, next, k - 1, reason);
    }
    if ThrowsWithin(list, page + 1, next, left - 1, reason) {
      var k :| 0 <= k < left - 1 && ThrowsAt(list, page + 1, next, k, reason);
      OneLater(list, page, cursor, k, reason);
    }
  }

  /**
   A listing is whole or nothing: it exists exactly when some page within the bound has no next cursor. It
   fails with what a page request within the bound threw, or, when none threw and none ended, for want of
   an end.
   */
  lemma {:induction false} DrainedExactlyWhenItEnds<Item>(expose: Expose<Item>, key: string, list: Lister<Item>,
      page: nat, cursor: Option<string>, reason: string)
    requires page <= MAX_PAGES
    ensures var r, left := Drained(expose, key, list, page, cursor), MAX_PAGES - page;
            && (r.Listed? <==> EndsWithin(list, page, cursor, left))
            && (ThrowsWithin(list, page, cursor, left, reason) ==> r == Failed(reason))
            && (r == Failed(reason) ==> ThrowsWithin(list, page, cursor, left, reason) || reason == NeverEnds(key))
    decreases MAX_PAGES - page
  {
    var left := MAX_PAGES - page;
    if left > 0 {
      match list(page, cursor)
      case Threw(thrown) =>
        assert ThrowsAt(list, page, cursor, 0, thrown);
      case Answered(p) =>
        if p.next.None? {
          assert EndsAt(list, page, cursor, 0);
        } else {
          EndsLater(list, page, cursor, left);
          ThrowsLater(list, page, cursor, left, reason);
          DrainedExactlyWhenItEnds(expose, key, list, page + 1, p.next, reason);
        }
    }
  }

  datatype Entry<!Item> = Entry(key: string, list: Lister<Item>)

  lemma JoinedTwice<Item>(a: seq<Item>, b: seq<Item>, rest: Listing<Item>)
    ensures Joined(a, Joined(b, rest)) == Joined(a + b, rest)
  {
    if rest.Listed? { assert a + (b + rest.items) == (a + b) + rest.items; }
  }

  method ListPages<Item>(expose: Expose<Item>, key: string, list: Lister<Item>) returns (r: Listing<Item>)
    ensures r == Drained(expose, key, list, 0, None)
  {
    var collected: seq<Item> := [];
    var cursor: Option<string> := None;
    ghost var all := Drained(expose, key, list, 0, None);
    assert all.Listed? ==> collected + all.items == all.items;
    for page := 0 to MAX_PAGES
      invariant all == Joined(collected, Drained(expose, key, list, page, cursor))
    {
      var answer := list(page, cursor);
      if answer.Threw? {
        return Failed(answer.reason);
      }
      ghost var before, own := collected, Exposed(expose, key, answer.page.items);
      for i := 0 to |answer.page.items|
        invariant collected == before + own[..i]
      {
        collected := collected + [expose(key, answer.page.items[i])];
      }
      assert own[..|own|] == own;
      if answer.page.next.None? {
        return Listed(collected);
      }
      JoinedTwice(before, own, Drained(expose, key, list, page + 1, answer.page.next));
      cursor := answer.page.next;
    }
    return Failed(NeverEnds(key));
  }

  /** A backend that contributes nothing, and why. */
  datatype Report = Report(key: string, reason: string)

  function ListingOf<Item>(expose: Expose<Item>, entry: Entry<Item>): Listing<Item> {
    Drained(expose, entry.key, entry.list, 0, None)
  }

  /** The listings of the backends that answered, in declaration order. */
  function Listings<Item>(expose: Expose<Item>, entries: seq<Entry<Item>>): seq<Item> {
    if entries == [] then []
    else
      var n := |entries| - 1;
      var own := ListingOf(expose, entries[n]);
      Listings(expose, entries[..n]) + if own.Listed? then own.items else []
  }

  /** The backends that did not, with what they failed for, in declaration order. */
  function Degraded<Item>(expose: Expose<Item>, entries: seq<Entry<Item>>): seq<Report> {
    if entries == [] then []
    else
      var n := |entries| - 1;
      var own := ListingOf(expose, entries[n]);
      Degraded(expose, entries[..n]) + if own.Failed? then [Report(entries[n].key, own.reason)] else []
  }

  method ListAcrossMesh<Item>(entries: seq<Entry<Item>>, expose: Expose<Item>)
    returns (items: seq<Item>, degraded: seq<Report>)
    ensures items == Listings(expose, entries) && degraded == Degraded(expose, entries)
  {
    items, degraded := [], [];
    for i := 0 to |entries|
      invariant items == Listings(expose, entries[..i]) && degraded == Degraded(expose, entries[..i])
    {
      var own := ListPages(expose, entries[i].key, entries[i].list);
      assert entries[..i + 1][..i] == entries[..i];
      match own
      case Listed(listed) =>
        items := items + listed;
      case Failed(reason) =>
        degraded := degraded + [Report(entries[i].key, reason)];
    }
    assert entries[..|entries|] == entries;
  }

  // ---- From the listing back to the backends ----

  /** What this backend lists, each item as the backend itself has it. */
  function OwnItems<Item>(entry: Entry<Item>): Listing<Item> {
    ListingOf((key: string, item: Item) => item, entry)
  }

  lemma {:induction false} ExposedListing<Item>(expose: Expose<Item>, key: string, list: Lister<Item>, page: nat,
      cursor: Option<string>)
    ensures Drained(expose, key, list, page, cursor)
         == match Drained((key: string, item: Item) => item, key, list, page, cursor)
            case Failed(reason) => Failed(reason)
            case Listed(items) => Listed(Exposed(expose, key, items))
    decreases MAX_PAGES - page
  {
    var own: Expose<Item> := (key: string, item: Item) => item;
    if page < MAX_PAGES && list(page, cursor).Answered? {
      var p := list(page, cursor).page;
      assert Exposed(own, key, p.items) == p.items;
      if p.next.Some? {
        ExposedListing(expose, key, list, page + 1, p.next);
        var rest := Drained(own, key, list, page + 1, p.next);
        if rest.Listed? {
          assert Exposed(expose, key, p.items + rest.items)
              == Exposed(expose, key, p.items) + Exposed(expose, key, rest.items);
        }
      }
    }
  }

  /** Item i of a mesh listing is item j of backend n. */
  ghost predicate ComesFrom<Item(!new)>(expose: Expose<Item>, entries: seq<Entry<Item>>, i: nat, n: nat, j: nat)
    requires i < |Listings(expose, entries)|
  {
    && n < |entries| && OwnItems(entries[n]).Listed? && j < |OwnItems(entries[n]).items|
    && Listings(expose, entries)[i] == expose(entries[n].key, OwnItems(entries[n]).items[j])
  }

  lemma {:induction false} ListedComesFrom<Item(!new)>(expose: Expose<Item>, entries: seq<Entry<Item>>, i: nat)
    returns (n: nat, j: nat)
    requires i < |Listings(expose, entries)|
    ensures ComesFrom(expose, entries, i, n, j)
  {
    var m := |entries| - 1;
    var before := Listings(expose, entries[..m]);
    if i < |before| {
      n, j := ListedComesFrom(expose, entries[..m], i);
    } else {
      ExposedListing(expose, entries[m].key, entries[m].list, 0, None);
      n, j := m, i - |before|;
    }
  }

  /** The backend is configured, and none of its items is nameless. */
  predicate Configured(entry: Entry<string>, keys: set<string>) {
    && ValidKey(entry.key) && entry.key in keys
    && (OwnItems(entry).Listed? ==> "" !in OwnItems(entry).items)
  }

  /** Every tool or prompt a mesh lists routes back to the backend it came from, by the backend's own name. */
  lemma ListedRoutesBack(entries: seq<Entry<string>>, keys: set<string>, i: nat) returns (n: nat, j: nat)
    requires i < |Listings(NamespaceName, entries)|
    requires forall e | e in entries :: Configured(e, keys) && e.key[|e.key| - 1] != '_'
    ensures ComesFrom(NamespaceName, entries, i, n, j)
    ensures RouteNamespaced(Listings(NamespaceName, entries)[i], keys)
         == Some((entries[n].key, OwnItems(entries[n]).items[j]))
  {
    n, j := ListedComesFrom(NamespaceName, entries, i);
    assert entries[n] in entries && OwnItems(entries[n]).items[j] in OwnItems(entries[n]).items;
    RouteUndoesNamespace(entries[n].key, OwnItems(entries[n]).items[j], keys);
  }

  /** Every resource a mesh lists routes back too, whatever its backend's key ends in. */
  lemma ListedUrisRouteBack(entries: seq<Entry<string>>, keys: set<string>, i: nat) returns (n: nat, j: nat)
    requires i < |Listings(NamespaceUri, entries)|
    requires forall e | e in entries :: Configured(e, keys)
    ensures ComesFrom(NamespaceUri, entries, i, n, j)
    ensures RouteResourceUri(Listings(NamespaceUri, entries)[i], keys)
         == Some((entries[n].key, OwnItems(entries[n]).items[j]))
  {
    n, j := ListedComesFrom(NamespaceUri, entries, i);
    assert entries[n] in entries && OwnItems(entries[n]).items[j] in OwnItems(entries[n]).items;
    RouteUndoesUri(entries[n].key, OwnItems(entries[n]).items[j], keys);
  }
}
