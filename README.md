# Settings search index (Tweaker, `SearchIndex.kt`)

This project models the search index of the Tweaker settings app once the Android
widget layer is stripped away, and proves properties of that model in Dafny.

- **Index construction.** Creating the index inflates seven preference screens, in the
  order apps, developer, display, net_misc, notifications, storage, ui. Each screen is a
  tree of preference groups (screens, categories) and other preferences. `process` walks
  a tree depth first, children in order. It appends an `ActionedPreference` for every
  preference that is not a group, tagged with the navigation action of the screen's
  fragment. Here the index is the class `Search.SearchIndex`, with a `seq` field that
  `Process` extends one entry at a time.
- **Query filtering.** `filter` keeps the entries whose lower-cased title or lower-cased
  summary contains the lower-cased query. A missing query, or one that is blank after
  lower-casing, keeps everything. The result is in index order. `filterPersistent`
  selects the same entries and turns each one into a `PersistentPreference`. The index
  itself is only read, so both are functions.
- **Record conversion.** The `fromPreference` builders copy fields from any preference.
  `ActionedPreference.fromPreference` copies only the source's specific keys (those of an
  `ISpecificPreference`) and never falls back to anything: a source without them gives an
  entry with no keys. `PersistentPreference.fromPreference` merges key lists, persistent
  keys first and then specific keys, each in order, and a secure source that contributes
  no keys at all gets `[key]`. In both, setting `dangerous` from a secure source marks the
  title red exactly when the flag is true. Each builder has a specification function
  (`ActionedOf`, `PersistentOf`) and a method that sets the fields step by step, as the
  Kotlin `apply` block does. The method is proved equal to its function. The `copy`
  helpers rebuild a record from itself.

Kotlin's `toString()` on a missing summary gives the text `"null"`, and the model keeps
this. An entry without a summary is searched as if its summary read "null", so the
query "null" (or "ul") finds it. `Search.MissingSummaryMatchesNull` states this.

Files: `wrappers.dfy` (`Option`, for Kotlin's nullable values), `text.dfy` (blank test
and substring search), `preferences.dfy` (records and builders), `search_index.dfy`
(trees, flattening, the index class, filtering).

## Model

| member | source | states |
|---|---|---|
| `Text.IsWhitespace` | app/src/main/java/com/rw/tweaks/data/SearchIndex.kt:68 | the whitespace test behind `isBlank()` accepts exactly the listed code points of Kotlin's `Char.isWhitespace` on the JVM |
| `Text.IsBlank` | app/src/main/java/com/rw/tweaks/data/SearchIndex.kt:68 | `isBlank()`, which tests index by index, is true exactly when every character of the string is whitespace, the empty string included |
| `Text.Contains` | app/src/main/java/com/rw/tweaks/data/SearchIndex.kt:69-70 | `contains`, a left-to-right scan over start positions, is true exactly when the needle occurs at some position of the text (so always for an empty needle) |
| `Text.OccursAfterFirst` | app/src/main/java/com/rw/tweaks/data/SearchIndex.kt:69-70 | when the needle does not start the text, it occurs in the text exactly when it occurs in the text without its first character |
| `Search.SummaryText` | app/src/main/java/com/rw/tweaks/data/SearchIndex.kt:70 | `summary.toString()` reads "null" exactly when the summary is missing or is itself the text "null" |
| `Search.Matches` | app/src/main/java/com/rw/tweaks/data/SearchIndex.kt:67-71 | an entry matches exactly when the query is missing, or is blank once lower-cased, or the lower-cased query occurs in the lower-cased title text or in the lower-cased summary text |
| `Preferences.MarkDangerous` | app/src/main/java/com/rw/tweaks/data/SearchIndex.kt:148-156 | `markDangerous` keeps the title text and marks it red exactly when `dangerous` is true |
| `Preferences.ActionedOf` | app/src/main/java/com/rw/tweaks/data/SearchIndex.kt:161-178 | an index entry copies title text, summary, icon, key and visibility; its keys are the source's specific keys in order (none otherwise); its action is the given one; a secure source's state is copied and the title is red exactly when dangerous; otherwise the secure state is fresh and the title is copied as is |
| `Preferences.ActionedFromPreference` | app/src/main/java/com/rw/tweaks/data/SearchIndex.kt:161-178 | setting the fields one by one, with the `dangerous` setter and `addAll` on the key list, builds exactly `ActionedOf(source, action)` |
| `Preferences.PersistentOf` | app/src/main/java/com/rw/tweaks/data/SearchIndex.kt:98-121 | a checkbox copy has no summary; copies title text, icon, key and visibility; its keys are the persistent keys then the specific keys; a secure source with no collected keys gets exactly `[key]`; a secure source's state is copied and the title is red exactly when dangerous |
| `Preferences.PersistentFromPreference` | app/src/main/java/com/rw/tweaks/data/SearchIndex.kt:98-121 | setting the fields one by one, with the two `addAll`s and the key fallback, builds exactly `PersistentOf(source)` |
| `Preferences.ActionedAsSource` | app/src/main/java/com/rw/tweaks/data/SearchIndex.kt:168-175 | an index entry passes the `is ISecurePreference` and `is ISpecificPreference` tests with its own secure state and keys, fails the `is PersistentPreference` test, and shows its own title, summary, icon, key and visibility |
| `Preferences.PersistentAsSource` | app/src/main/java/com/rw/tweaks/data/SearchIndex.kt:105-111 | a checkbox copy passes the `is PersistentPreference` and `is ISecurePreference` tests with its own keys and secure state, fails the `is ISpecificPreference` test, and shows its own title, summary, icon, key and visibility |
| `Preferences.ActionedCopy` | app/src/main/java/com/rw/tweaks/data/SearchIndex.kt:180-182 | `copy` gives the entry back with every field kept, its action included, except that the title's red marker is reset from the `dangerous` flag |
| `Preferences.PersistentCopy` | app/src/main/java/com/rw/tweaks/data/SearchIndex.kt:123-125 | `copy` gives the checkbox copy back with every field kept except that the red marker is reset from the `dangerous` flag, the summary is dropped, and a copy without keys gets `[key]` |
| `Preferences.ActionedCopyFixedPoint` | app/src/main/java/com/rw/tweaks/data/SearchIndex.kt:198-200 | copying an entry whose red marker agrees with its flag gives it back unchanged; copying twice equals copying once |
| `Preferences.ActionedCopyOfSecure` | app/src/main/java/com/rw/tweaks/data/SearchIndex.kt:192-196 | every entry built from a secure source, whose `dangerous` setter ran, is a fixed point of `copy` |
| `Preferences.PersistentCopyOfSecure` | app/src/main/java/com/rw/tweaks/data/SearchIndex.kt:144-146 | a checkbox copy of a secure source always has a key, and copying it again changes nothing |
| `Preferences.PersistentOfEntry` | app/src/main/java/com/rw/tweaks/data/SearchIndex.kt:105-119 | converting an index entry gives its own keys, or `[key]` when it has none (so never no keys), no summary, its title text and secure state, and a red title exactly when dangerous |
| `Search.LeavesOfAppend` | app/src/main/java/com/rw/tweaks/data/SearchIndex.kt:52-56 | flattening a list of siblings is flattening each sibling in turn, in order |
| `Search.Leaves` | app/src/main/java/com/rw/tweaks/data/SearchIndex.kt:51-58 | the depth-first flattening of a tree that `process` follows holds a preference exactly when it is a non-group node of that tree: groups are walked into and never listed |
| `Search.LeavesOf` | app/src/main/java/com/rw/tweaks/data/SearchIndex.kt:52-57 | the flattening of a child list, child by child in index order, holds a preference exactly when it is a non-group node of one of the children |
| `Search.Tagged` | app/src/main/java/com/rw/tweaks/data/SearchIndex.kt:56 | tagging a screen's preferences with its action gives one entry per preference |
| `Search.IndexOver` | app/src/main/java/com/rw/tweaks/data/SearchIndex.kt:36-45 | the index of a list of screens holds only entries that carry the action of one of those screens |
| `Search.LoadStep` | app/src/main/java/com/rw/tweaks/data/SearchIndex.kt:36-45 | inflating the screen at each position of the load order appends that screen's entries after those of the screens before it |
| `Search.LoadedIndex` | app/src/main/java/com/rw/tweaks/data/SearchIndex.kt:37-43 | the index over the load order is the entries of apps, developer, display, net_misc, notifications, storage and ui, one screen after the other |
| `Search.ProcessStep` | app/src/main/java/com/rw/tweaks/data/SearchIndex.kt:52-56 | one turn of `process`'s loop appends the entries of child `i` after those of the children before it |
| `Search.IndexSound` | app/src/main/java/com/rw/tweaks/data/SearchIndex.kt:36-58 | every entry of the index is built from a non-group preference of some screen and carries that screen's action |
| `Search.IndexComplete` | app/src/main/java/com/rw/tweaks/data/SearchIndex.kt:36-58 | every non-group preference of every screen has an entry in the index carrying that screen's action |
| `Search.Select` | app/src/main/java/com/rw/tweaks/data/SearchIndex.kt:66-71 | the filter keeps an order-preserving subsequence of the entries; an entry is in it exactly when it matches; each matching entry keeps its multiplicity and each other entry is absent |
| `Search.SelectAll` | app/src/main/java/com/rw/tweaks/data/SearchIndex.kt:68 | a missing query, or one that is blank after lower-casing, keeps every entry in index order |
| `Search.SelectIdempotent` | app/src/main/java/com/rw/tweaks/data/SearchIndex.kt:67-71 | filtering a result again with the same query changes nothing |
| `Search.MarkerInvisibleToSearch` | app/src/main/java/com/rw/tweaks/data/SearchIndex.kt:69 | search reads `title.toString()`, which drops the red span; the model reads only the title text, and the lemma spells out that marking a title never changes whether it matches |
| `Search.MissingSummaryMatchesNull` | app/src/main/java/com/rw/tweaks/data/SearchIndex.kt:70 | an entry without a summary matches the query "null", because a missing summary reads "null" |
| `Search.SearchIndex.constructor` | app/src/main/java/com/rw/tweaks/data/SearchIndex.kt:36-45 | the loaded index is the concatenation of the seven screens' entries in the order apps, developer, display, net_misc, notifications, storage, ui |
| `Search.SearchIndex.Inflate` | app/src/main/java/com/rw/tweaks/data/SearchIndex.kt:47-49 | inflating a screen returns it and appends its entries, tagged with the given action |
| `Search.SearchIndex.Process` | app/src/main/java/com/rw/tweaks/data/SearchIndex.kt:51-58 | the index becomes the old index followed by one entry per non-group node, depth first, each tagged with the action; it grows by exactly the number of such nodes and the old entries stay as they were |
| `Search.SearchIndex.Filter` | app/src/main/java/com/rw/tweaks/data/SearchIndex.kt:60-76 | the result is an order-preserving subsequence of the index holding exactly the matching entries, each as many times as in the index; with a missing or blank query it is the whole index; the index is only read |
| `Search.SearchIndex.FilterPersistent` | app/src/main/java/com/rw/tweaks/data/SearchIndex.kt:78-94 | the result has one checkbox copy per entry of `Filter` for the same query, in the same order; each has at least one key and no summary |

## Left out

- The `getInstance` singleton, `ContextWrapper` and `PreferenceManager`: Android lifecycle plumbing.
- Coroutines (`MainScope`, `async`, `launch`, `await`, the result callbacks): `Filter` and `FilterPersistent` are plain functions over an index whose constructor has finished loading, and they return the list instead of passing it to a callback.
- `inflateFromResource` and the `R.xml.*` resources: the constructor takes the parsed tree of each screen as the parameter `screens`; the `R.id.*` fragment ids are the parameter `ids`.
- Lower-casing with `Locale.getDefault()`: the parameter `toLower`, one function used for the query and for every entry, so a locale change between calls is not modelled.
- Kotlin's `Char.isWhitespace`: written out as a fixed set of code points; Kotlin works on UTF-16 code units while Dafny's `char` is a Unicode scalar value.
- `SpannableString`, `ForegroundColorSpan`, `Color.RED`: reduced to the boolean `red` on a title.
- `icon`, `iconColor`, `type` and the `SecurePreference` delegate: opaque values that are copied unchanged; `Initial` stands for the delegate's initial value, whose code is not part of this model.
- Null titles and null keys: titles and keys are always strings here, so `SpannableString(null)` and `keys.add(null)` do not arise. Missing summaries are modelled.
- Identity and update in place of the records: entries are values, so the aliasing between the index and `filter`'s result, and later calls of the `dangerous` setter from outside this file, are not modelled. The setter is modelled where the builders call it.
- `isPersistent = false` and the `isPersistent()` override of `PersistentPreference`: a constant that plays no part in indexing or search.
