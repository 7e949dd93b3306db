/** The settings search index of SearchIndex.kt: the seven preference screens
    are flattened, depth first, into one list of index entries, and queries
    select from that list by a case-insensitive substring test on titles and
    summaries. */
module Search {
  import opened Wrappers
  import opened Text
  import opened Preferences

  /** A parsed preference tree: a `PreferenceGroup` (a screen or a category)
      with its children in order, or any other preference. */
  datatype Node = Group(children: seq<Node>) | Item(pref: Preference)

  /** `p` is a non-group preference somewhere inside `n`. */
  predicate Occurs(p: Preference, n: Node)
    decreases n
  {
    match n
    case Item(q) => p == q
    case Group(cs) => exists k :: 0 <= k < |cs| && Occurs(p, cs[k])
  }

  /** The non-group preferences of a tree, depth first, children in order.
      It holds exactly the non-group preferences of the tree: nothing is lost
      and no group is listed. */
  function Leaves(n: Node): (r: seq<Preference>)
    ensures forall p :: p in r <==> Occurs(p, n)
    decreases n, 1
  {
    match n
    case Item(p) => [p]
    case Group(cs) => LeavesOf(cs)
  }

  /** The non-group preferences of a list of sibling trees, in order. */
  function LeavesOf(cs: seq<Node>): (r: seq<Preference>)
    ensures forall p :: p in r <==> exists k :: 0 <= k < |cs| && Occurs(p, cs[k])
    decreases cs, 0
  {
    if cs == [] then []
    else
      var init := cs[..|cs| - 1];
      assert forall k :: 0 <= k < |init| ==> init[k] == cs[k];
      LeavesOf(init) + Leaves(cs[|cs| - 1])
  }

  /** Flattening a list of siblings is flattening each sibling in turn. */
  lemma {:induction false} LeavesOfAppend(a: seq<Node>, b: seq<Node>)
    ensures LeavesOf(a + b) == LeavesOf(a) + LeavesOf(b)
    decreases |b|
  {
    if b == [] {
      assert a + b == a;
    } else {
      var b' := b[..|b| - 1];
      assert (a + b)[..|a + b| - 1] == a + b';
      assert (a + b)[|a + b| - 1] == b[|b| - 1];
      LeavesOfAppend(a, b');
    }
  }

  /** Index entries for a screen's preferences, all tagged with its action. */
  function Tagged(ps: seq<Preference>, action: int): (r: seq<ActionedPreference>)
    ensures |r| == |ps|
  {
    seq(|ps|, i requires 0 <= i < |ps| => ActionedOf(ps[i], action))
  }

  /** The screens whose preferences are indexed. */
  datatype Screen = Apps | Developer | Display | NetMisc | Notifications | Storage | Ui

  /** The order in which the screens are inflated. */
  const LoadOrder: seq<Screen> := [Apps, Developer, Display, NetMisc, Notifications, Storage, Ui]

  /** The entries one screen contributes. */
  function ScreenEntries(screens: Screen -> Node, ids: Screen -> int, s: Screen): seq<ActionedPreference> {
    Tagged(Leaves(screens(s)), ids(s))
  }

  /** The entries of the screens of `order`, one screen after the other. */
  function IndexOver(order: seq<Screen>, screens: Screen -> Node, ids: Screen -> int): (r: seq<ActionedPreference>)
    ensures forall e :: e in r ==> exists k :: 0 <= k < |order| && e.action == ids(order[k])
    decreases |order|
  {
    if order == [] then []
    else IndexOver(order[..|order| - 1], screens, ids) + ScreenEntries(screens, ids, order[|order| - 1])
  }

  /** Inflating the screen at position `k` of `LoadOrder` extends the index
      of the screens before it by that screen's entries. */
  lemma LoadStep(k: nat, screens: Screen -> Node, ids: Screen -> int)
    requires k < |LoadOrder|
    ensures IndexOver(LoadOrder[..k + 1], screens, ids)
         == IndexOver(LoadOrder[..k], screens, ids) + ScreenEntries(screens, ids, LoadOrder[k])
  {
    assert LoadOrder[..k + 1][..k] == LoadOrder[..k];
  }

  /** The index over `LoadOrder`, screen by screen. */
  lemma LoadedIndex(screens: Screen -> Node, ids: Screen -> int)
    ensures IndexOver(LoadOrder, screens, ids)
         == [] + ScreenEntries(screens, ids, Apps) + ScreenEntries(screens, ids, Developer)
            + ScreenEntries(screens, ids, Display) + ScreenEntries(screens, ids, NetMisc)
            + ScreenEntries(screens, ids, Notifications) + ScreenEntries(screens, ids, Storage)
            + ScreenEntries(screens, ids, Ui)
  {
    assert LoadOrder[..0] == [];
    LoadStep(0, screens, ids);
    LoadStep(1, screens, ids);
    LoadStep(2, screens, ids);
    LoadStep(3, screens, ids);
    LoadStep(4, screens, ids);
    LoadStep(5, screens, ids);
    LoadStep(6, screens, ids);
    assert LoadOrder[..7] == LoadOrder;
  }

  /** Every index entry is built from a non-group preference of one of the
      screens, tagged with that screen's action. */
  lemma {:induction false} IndexSound(order: seq<Screen>, screens: Screen -> Node, ids: Screen -> int, e: ActionedPreference)
    requires e in IndexOver(order, screens, ids)
    ensures exists k, p :: 0 <= k < |order| && Occurs(p, screens(order[k])) && e == ActionedOf(p, ids(order[k]))
    decreases |order|
  {
    var n := |order| - 1;
    var init := order[..n];
    var last := ScreenEntries(screens, ids, order[n]);
    if e in last {
      var i :| 0 <= i < |last| && last[i] == e;
      var p := Leaves(screens(order[n]))[i];
            assert Occurs(p, screens(order[n])) && e == ActionedOf(p, ids(order[n]));
    } else {
      IndexSound(init, screens, ids, e);
      var k, p :| 0 <= k < |init| && Occurs(p, screens(init[k])) && e == ActionedOf(p, ids(init[k]));
      assert init[k] == order[k];
    }
  }

  /** Every non-group preference of every screen has an index entry tagged
      with that screen's action. */
  lemma {:induction false} IndexComplete(order: seq<Screen>, screens: Screen -> Node, ids: Screen -> int, k: int, p: Preference)
    requires 0 <= k < |order| && Occurs(p, screens(order[k]))
    ensures ActionedOf(p, ids(order[k])) in IndexOver(order, screens, ids)
    decreases |order|
  {
    var n := |order| - 1;
    if k == n {
            var leaves := Leaves(screens(order[n]));
      var i :| 0 <= i < |leaves| && leaves[i] == p;
      assert ScreenEntries(screens, ids, order[n])[i] == ActionedOf(p, ids(order[n]));
    } else {
      assert order[..n][k] == order[k];
      IndexComplete(order[..n], screens, ids, k, p);
    }
  }

  /** What `toString()` gives for a summary: a missing summary reads "null",
      so search cannot tell it from a summary that is the text "null". */
  function SummaryText(summary: Option<string>): (r: string)
    ensures r == "null" <==> summary == None || summary == Some("null")
  {
    match summary
    case None => "null"
    case Some(s) => s
  }

  /** The predicate of `filter` and `filterPersistent`, with `toLower` the
      default locale's lower-casing: a missing query, or one that is blank
      once lower-cased, matches every entry; otherwise the lower-cased query
      must occur in the lower-cased title text or the lower-cased summary
      text. */
  function Matches(toLower: string -> string, query: Option<string>, e: ActionedPreference): (r: bool)
    ensures r <==>
      query.None? || IsBlank(toLower(query.value))
      || (exists i :: OccursAt(toLower(e.title.text), toLower(query.value), i))
      || (exists i :: OccursAt(toLower(SummaryText(e.summary)), toLower(query.value), i))
  {
    match query
    case None => true
    case Some(q) =>
      var needle := toLower(q);
      IsBlank(needle)
      || Contains(toLower(e.title.text), needle)
      || Contains(toLower(SummaryText(e.summary)), needle)
  }

  /** `b` keeps the elements of `a`, some of them dropped, in their order. */
  predicate IsSubsequence<T(==)>(a: seq<T>, b: seq<T>)
    decreases |b|
  {
    if a == [] then true
    else if b == [] then false
    else (a[0] == b[0] && IsSubsequence(a[1..], b[1..])) || IsSubsequence(a, b[1..])
  }

  /** `preferences.filter { ... }`: the matching entries, in index order. */
  function Select(toLower: string -> string, query: Option<string>, es: seq<ActionedPreference>): (r: seq<ActionedPreference>)
    ensures IsSubsequence(r, es)
    ensures forall e :: e in r <==> e in es && Matches(toLower, query, e)
    ensures forall e :: multiset(r)[e] == if Matches(toLower, query, e) then multiset(es)[e] else 0
    decreases |es|
  {
    if es == [] then []
    else
      assert es == [es[0]] + es[1..];
      if Matches(toLower, query, es[0]) then [es[0]] + Select(toLower, query, es[1..])
      else Select(toLower, query, es[1..])
  }

  /** A missing or blank query selects every entry, in index order. */
  lemma {:induction false} SelectAll(toLower: string -> string, query: Option<string>, es: seq<ActionedPreference>)
    requires query.None? || IsBlank(toLower(query.value))
    ensures Select(toLower, query, es) == es
    decreases |es|
  {
    if es != [] {
      SelectAll(toLower, query, es[1..]);
      assert es == [es[0]] + es[1..];
    }
  }

  /** Filtering a result again with the same query changes nothing. */
  lemma {:induction false} SelectIdempotent(toLower: string -> string, query: Option<string>, es: seq<ActionedPreference>)
    ensures Select(toLower, query, Select(toLower, query, es)) == Select(toLower, query, es)
    decreases |es|
  {
    if es != [] {
      SelectIdempotent(toLower, query, es[1..]);
      var rest := Select(toLower, query, es[1..]);
      if Matches(toLower, query, es[0]) {
        assert ([es[0]] + rest)[1..] == rest;
      }
    }
  }

  /** Search looks at `title.toString()`, which drops the red span: the
      model records this by reading only the title's text in `Matches`, and
      this lemma spells out the consequence that marking a title never
      changes whether it matches. */
  lemma MarkerInvisibleToSearch(toLower: string -> string, query: Option<string>, e: ActionedPreference, dangerous: bool)
    ensures Matches(toLower, query, e.(title := MarkDangerous(e.title, dangerous))) == Matches(toLower, query, e)
  {
  }

  /** An entry without a summary is searched as if its summary were the text
      "null", so the query "null" finds it whatever its title. */
  lemma MissingSummaryMatchesNull(toLower: string -> string, e: ActionedPreference)
    requires e.summary.None? && toLower("null") == "null"
    ensures Matches(toLower, Some("null"), e)
  {
    assert !IsWhitespace('n');
    assert "null"[..4] == "null";
  }

  /** The index, once the seven screens have been inflated. */
  class SearchIndex {
    var preferences: seq<ActionedPreference>

    /** Creating the index inflates the seven screens in `LoadOrder`, each
        tagged with its fragment's navigation action `ids(s)`. `screens(s)`
        is the parsed preference screen of `s`. */
    constructor (screens: Screen -> Node, ids: Screen -> int)
      requires forall s :: screens(s).Group?
      ensures preferences == IndexOver(LoadOrder, screens, ids)
    {
      preferences := [];
      new;
      var apps := Inflate(screens(Apps), ids(Apps));
      var developer := Inflate(screens(Developer), ids(Developer));
      var display := Inflate(screens(Display), ids(Display));
      var netMisc := Inflate(screens(NetMisc), ids(NetMisc));
      var notifications := Inflate(screens(Notifications), ids(Notifications));
      var storage := Inflate(screens(Storage), ids(Storage));
      var ui := Inflate(screens(Ui), ids(Ui));
      LoadedIndex(screens, ids);
    }

    /** `inflate`: index one parsed screen and hand it back. */
    method Inflate(screen: Node, action: int) returns (inflated: Node)
      requires screen.Group?
      modifies this
      ensures inflated == screen
      ensures preferences == old(preferences) + Tagged(Leaves(screen), action)
    {
      Process(screen, action);
      inflated := screen;
    }

    /** `process`: append an entry for every non-group preference of
        `group`, depth first, each tagged with `action`. Groups are walked
        into and never appended; the entries already present stay as they
        are. */
    method Process(group: Node, action: int)
      requires group.Group?
      modifies this
      ensures preferences == old(preferences) + Tagged(Leaves(group), action)
      ensures |preferences| == |old(preferences)| + |Leaves(group)|
      ensures forall i :: |old(preferences)| <= i < |preferences| ==> preferences[i].action == action
      decreases group
    {
      var children := group.children;
      for i := 0 to |children|
        invariant preferences == old(preferences) + Tagged(LeavesOf(children[..i]), action)
      {
        var child := children[i];
        ghost var before := preferences;
        if child.Group? {
          Process(child, action);
        } else {
          var entry := ActionedFromPreference(child.pref, action);
          preferences := preferences + [entry];
          assert Tagged(Leaves(child), action) == [entry];
        }
        ProcessStep(children, i, action);
      }
      assert children[..|children|] == children;
    }

    /** `filter(query, result)`: the entries that match the query, in index
        order; the index is only read. */
    function Filter(toLower: string -> string, query: Option<string>): (r: seq<ActionedPreference>)
      reads this
      ensures IsSubsequence(r, preferences)
      ensures forall e :: e in r <==> e in preferences && Matches(toLower, query, e)
      ensures forall e :: multiset(r)[e] == if Matches(toLower, query, e) then multiset(preferences)[e] else 0
      ensures query.None? || IsBlank(toLower(query.value)) ==> r == preferences
    {
      if query.None? || IsBlank(toLower(query.value)) then
        SelectAll(toLower, query, preferences);
        Select(toLower, query, preferences)
      else
        Select(toLower, query, preferences)
    }

    /** `filterPersistent(query, result)`: the same entries as `filter`, in
        the same order, each turned into a checkbox copy that always has at
        least one key. */
    function FilterPersistent(toLower: string -> string, query: Option<string>): (r: seq<PersistentPreference>)
      reads this
      ensures |r| == |Filter(toLower, query)|
      ensures forall i :: 0 <= i < |r| ==> r[i] == PersistentOf(ActionedAsSource(Filter(toLower, query)[i]))
      ensures forall i :: 0 <= i < |r| ==> r[i].keys != [] && r[i].summary == None
    {
      var selected := Select(toLower, query, preferences);
      var r := seq(|selected|, i requires 0 <= i < |selected| => PersistentOf(ActionedAsSource(selected[i])));
      assert forall i :: 0 <= i < |r| ==> r[i].keys != [] by {
        forall i | 0 <= i < |r| ensures r[i].keys != [] {
          PersistentOfEntry(selected[i]);
        }
      }
      r
    }
  }

  /** One turn of `process`'s loop: the entries of the first `i + 1`
      children are those of the first `i` followed by those of child `i`. */
  lemma ProcessStep(children: seq<Node>, i: nat, action: int)
    requires i < |children|
    ensures Tagged(LeavesOf(children[..i + 1]), action)
         == Tagged(LeavesOf(children[..i]), action) + Tagged(Leaves(children[i]), action)
  {
    assert children[..i + 1][..i] == children[..i];
    TaggedAppend(LeavesOf(children[..i]), Leaves(children[i]), action);
  }

  /** Tagging distributes over concatenation. */
  lemma TaggedAppend(a: seq<Preference>, b: seq<Preference>, action: int)
    ensures Tagged(a + b, action) == Tagged(a, action) + Tagged(b, action)
  {
  }
}
