/** The preference records of SearchIndex.kt, with the Android widget state
    reduced to plain values: `ActionedPreference` (an index entry, tagged with
    the navigation action of its screen), `PersistentPreference` (the checkbox
    copy handed out by `filterPersistent`), and the builders that copy fields
    into them. */
module Preferences {
  import opened Wrappers

  /** A title as a widget holds it: its text, and whether a red foreground
      span covers the whole of it (the "dangerous" marker). */
  datatype Title = Title(text: string, red: bool)

  /** A value the model only copies and never looks into (an icon, an icon
      colour, a settings table). `Initial` is whatever a freshly created
      `SecurePreference` delegate starts with. */
  datatype Opaque = Initial | Value(id: int)

  /** The state of an `ISecurePreference`. */
  datatype Secure = Secure(dangerous: bool, iconColor: Opaque, settingsType: Opaque)

  /** The secure state of a record that has just been created: `dangerous`
      defaults to false, the rest to the delegate's initial values. */
  const FreshSecure := Secure(false, Initial, Initial)

  /** Any preference a builder may copy from. Which interfaces its class
      implements is recorded by which optional parts are present:
      `secure` for `ISecurePreference`, `specificKeys` for
      `ISpecificPreference`, `persistentKeys` for being a
      `PersistentPreference`. */
  datatype Preference = Preference(
    title: Title,
    summary: Option<string>,
    icon: Opaque,
    key: string,
    visible: bool,
    secure: Option<Secure>,
    specificKeys: Option<seq<string>>,
    persistentKeys: Option<seq<string>>)

  /** An entry of the search index. */
  datatype ActionedPreference = ActionedPreference(
    title: Title,
    summary: Option<string>,
    icon: Opaque,
    key: string,
    visible: bool,
    secure: Secure,
    keys: seq<string>,
    action: int)

  /** A search result as handed to a screen that shows check boxes. */
  datatype PersistentPreference = PersistentPreference(
    title: Title,
    summary: Option<string>,
    icon: Opaque,
    key: string,
    visible: bool,
    secure: Secure,
    keys: seq<string>)

  /** `markDangerous()`: the title keeps its text and is marked red exactly
      when the preference is dangerous. */
  function MarkDangerous(title: Title, dangerous: bool): (r: Title)
    ensures r.text == title.text
    ensures r.red <==> dangerous
  {
    Title(title.text, dangerous)
  }

  /** The keys an `ISpecificPreference` source contributes (none otherwise). */
  function SpecificKeys(p: Preference): seq<string> {
    match p.specificKeys
    case Some(ks) => ks
    case None => []
  }

  /** The keys a `PersistentPreference` source contributes (none otherwise). */
  function PersistentKeys(p: Preference): seq<string> {
    match p.persistentKeys
    case Some(ks) => ks
    case None => []
  }

  /** The keys `PersistentPreference.fromPreference` collects before the
      fallback: the persistent keys, then the specific keys, each in order. */
  function CollectedKeys(p: Preference): seq<string> {
    PersistentKeys(p) + SpecificKeys(p)
  }

  /** The record `ActionedPreference.fromPreference(context, source, action)`
      builds. */
  function ActionedOf(source: Preference, action: int): (r: ActionedPreference)
    ensures r.title.text == source.title.text
    ensures r.summary == source.summary && r.icon == source.icon
    ensures r.key == source.key && r.visible == source.visible
    ensures r.keys == SpecificKeys(source)
    ensures r.action == action
    ensures source.secure.Some? ==>
              r.secure == source.secure.value && (r.title.red <==> r.secure.dangerous)
    ensures source.secure.None? ==> r.secure == FreshSecure && r.title == source.title
  {
    match source.secure
    case Some(s) =>
      ActionedPreference(MarkDangerous(source.title, s.dangerous), source.summary, source.icon,
                         source.key, source.visible, s, SpecificKeys(source), action)
    case None =>
      ActionedPreference(source.title, source.summary, source.icon,
                         source.key, source.visible, FreshSecure, SpecificKeys(source), action)
  }

  /** The record `PersistentPreference.fromPreference(context, source)`
      builds. */
  function PersistentOf(source: Preference): (r: PersistentPreference)
    ensures r.title.text == source.title.text
    ensures r.summary == None
    ensures r.icon == source.icon && r.key == source.key && r.visible == source.visible
    ensures source.secure.Some? && CollectedKeys(source) == [] ==> r.keys == [source.key]
    ensures source.secure.None? || CollectedKeys(source) != [] ==> r.keys == CollectedKeys(source)
    ensures source.secure.Some? ==>
              r.secure == source.secure.value && (r.title.red <==> r.secure.dangerous)
    ensures source.secure.None? ==> r.secure == FreshSecure && r.title == source.title
  {
    var collected := CollectedKeys(source);
    match source.secure
    case Some(s) =>
      PersistentPreference(MarkDangerous(source.title, s.dangerous), None, source.icon,
                           source.key, source.visible, s,
                           if collected == [] then [source.key] else collected)
    case None =>
      PersistentPreference(source.title, None, source.icon,
                           source.key, source.visible, FreshSecure, collected)
  }

  /** An index entry seen as a source by the `is` tests of the builders: it
      is an `ISecurePreference` and an `ISpecificPreference` whose keys are
      its own, and not a `PersistentPreference`. */
  function ActionedAsSource(a: ActionedPreference): (r: Preference)
    ensures r.secure == Some(a.secure)
    ensures r.specificKeys.Some? && r.persistentKeys.None?
    ensures SpecificKeys(r) == a.keys && CollectedKeys(r) == a.keys
    ensures r.title == a.title && r.summary == a.summary && r.icon == a.icon
    ensures r.key == a.key && r.visible == a.visible
  {
    Preference(a.title, a.summary, a.icon, a.key, a.visible, Some(a.secure), Some(a.keys), None)
  }

  /** A checkbox copy seen as a source by the `is` tests of the builders: it
      is an `ISecurePreference` and a `PersistentPreference`, and not an
      `ISpecificPreference`. */
  function PersistentAsSource(p: PersistentPreference): (r: Preference)
    ensures r.secure == Some(p.secure)
    ensures r.persistentKeys.Some? && r.specificKeys.None?
    ensures PersistentKeys(r) == p.keys && CollectedKeys(r) == p.keys
    ensures r.title == p.title && r.summary == p.summary && r.icon == p.icon
    ensures r.key == p.key && r.visible == p.visible
  {
    Preference(p.title, p.summary, p.icon, p.key, p.visible, Some(p.secure), None, Some(p.keys))
  }

  /** `ActionedPreference.copy` (both the companion and the member form):
      rebuilt from itself, with its own action. Everything is kept, except
      that the title's marker is reset from the `dangerous` flag. */
  function ActionedCopy(a: ActionedPreference): (r: ActionedPreference)
    ensures r == a.(title := MarkDangerous(a.title, a.secure.dangerous))
  {
    ActionedOf(ActionedAsSource(a), a.action)
  }

  /** `PersistentPreference.copy` (both the companion and the member form):
      everything is kept, except that the marker is reset from the flag, the
      summary is dropped, and a copy without keys gets `[key]`. */
  function PersistentCopy(p: PersistentPreference): (r: PersistentPreference)
    ensures r == p.(title := MarkDangerous(p.title, p.secure.dangerous), summary := None,
                    keys := if p.keys == [] then [p.key] else p.keys)
  {
    PersistentOf(PersistentAsSource(p))
  }

  /** A fresh `ActionedPreference(context)`: the builder overwrites every
      field below except `secure` and `keys`, which start at their defaults. */
  const BlankActioned := ActionedPreference(Title([], false), None, Initial, [], true, FreshSecure, [], 0)

  /** A fresh `PersistentPreference(context)`; its summary is never set. */
  const BlankPersistent := PersistentPreference(Title([], false), None, Initial, [], true, FreshSecure, [])

  /** `ActionedPreference.fromPreference`, step by step as its `apply` block
      sets the fields of the fresh record. */
  method ActionedFromPreference(source: Preference, action: int) returns (r: ActionedPreference)
    ensures r == ActionedOf(source, action)
  {
    r := BlankActioned;
    r := r.(title := source.title);
    r := r.(summary := source.summary);
    r := r.(icon := source.icon);
    r := r.(key := source.key);
    r := r.(visible := source.visible);
    if source.secure.Some? {
      var s := source.secure.value;
      // the `dangerous` setter stores the flag and then calls markDangerous()
      r := r.(secure := r.secure.(dangerous := s.dangerous));
      r := r.(title := MarkDangerous(r.title, r.secure.dangerous));
      r := r.(secure := r.secure.(iconColor := s.iconColor));
      r := r.(secure := r.secure.(settingsType := s.settingsType));
    }
    if source.specificKeys.Some? {
      r := r.(keys := r.keys + source.specificKeys.value);
    }
    r := r.(action := action);
  }

  /** `PersistentPreference.fromPreference`, step by step as its `apply`
      block sets the fields of the fresh record. */
  method PersistentFromPreference(source: Preference) returns (r: PersistentPreference)
    ensures r == PersistentOf(source)
  {
    r := BlankPersistent;
    r := r.(title := source.title);
    r := r.(icon := source.icon);
    r := r.(key := source.key);
    r := r.(visible := source.visible);
    if source.persistentKeys.Some? {
      r := r.(keys := r.keys + source.persistentKeys.value);
    }
    if source.specificKeys.Some? {
      r := r.(keys := r.keys + source.specificKeys.value);
    }
    if source.secure.Some? {
      var s := source.secure.value;
      r := r.(secure := r.secure.(dangerous := s.dangerous));
      r := r.(title := MarkDangerous(r.title, r.secure.dangerous));
      r := r.(secure := r.secure.(iconColor := s.iconColor));
      r := r.(secure := r.secure.(settingsType := s.settingsType));
      if r.keys == [] {
        r := r.(keys := r.keys + [source.key]);
      }
    }
  }

  /** Copying an index entry whose marker already agrees with its flag gives
      the entry back unchanged; so copying twice is copying once. */
  lemma ActionedCopyFixedPoint(a: ActionedPreference)
    ensures (a.title.red <==> a.secure.dangerous) ==> ActionedCopy(a) == a
    ensures ActionedCopy(ActionedCopy(a)) == ActionedCopy(a)
  {
  }

  /** Every entry `ActionedOf` builds from a secure source is a fixed point
      of `copy`. */
  lemma ActionedCopyOfSecure(source: Preference, action: int)
    requires source.secure.Some?
    ensures ActionedCopy(ActionedOf(source, action)) == ActionedOf(source, action)
  {
    ActionedCopyFixedPoint(ActionedOf(source, action));
  }

  /** A checkbox copy built from a secure source always has a key, and
      copying it again changes nothing. */
  lemma PersistentCopyOfSecure(source: Preference)
    requires source.secure.Some?
    ensures PersistentOf(source).keys != []
    ensures PersistentCopy(PersistentOf(source)) == PersistentOf(source)
  {
  }

  /** What `filterPersistent` hands out for an index entry: the entry's
      title text, marker, key, visibility and secure state, no summary, and
      the entry's specific keys, or `[key]` when it has none. */
  lemma PersistentOfEntry(a: ActionedPreference)
    ensures PersistentOf(ActionedAsSource(a)).keys == if a.keys == [] then [a.key] else a.keys
    ensures PersistentOf(ActionedAsSource(a)).keys != []
    ensures PersistentOf(ActionedAsSource(a)).summary == None
    ensures PersistentOf(ActionedAsSource(a)).title.text == a.title.text
    ensures PersistentOf(ActionedAsSource(a)).title.red <==> a.secure.dangerous
    ensures PersistentOf(ActionedAsSource(a)).secure == a.secure
  {
    assert CollectedKeys(ActionedAsSource(a)) == a.keys;
  }
}
