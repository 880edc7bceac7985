/**
 The persisted settings: three preferences loaded once from a key-value store
 (the user-defaults database) and written back to it on every assignment.
 The store is a map from key strings to stored values; change notification
 to observers is not modelled.
 */
module SettingsManager {
  import opened Wrappers

  /** First column of the calendar grid; the raw values are what the store holds. */
  datatype FirstDayOfWeek = Sunday | Monday

  function RawValue(f: FirstDayOfWeek): (r: int)
    ensures r == 0 <==> f == Sunday
    ensures r == 1 <==> f == Monday
  {
    match f
    case Sunday => 0
    case Monday => 1
  }

  /** The failable raw-value initializer: only 0 and 1 name a case. */
  function FromRawValue(i: int): (r: Option<FirstDayOfWeek>)
    ensures r.Some? <==> i == 0 || i == 1
    ensures r.Some? ==> RawValue(r.value) == i
  {
    if i == 0 then Some(Sunday) else if i == 1 then Some(Monday) else None
  }

  /** A value as the store keeps it: the first-day setting is an integer, the other two are booleans. */
  datatype Value = IntValue(i: int) | BoolValue(b: bool)

  type Store = map<string, Value>

  const FirstDayOfWeekKey: string := "firstDayOfWeek"
  const UseCalendarIconKey: string := "useCalendarIcon"
  const ShowWeekNumbersKey: string := "showWeekNumbers"

  /** The store's integer read: 0 for an absent key, booleans read as 0 or 1. */
  function IntegerFor(store: Store, key: string): (r: int)
    ensures key !in store ==> r == 0
    ensures key in store && store[key].IntValue? ==> r == store[key].i
  {
    if key !in store then 0
    else match store[key]
      case IntValue(i) => i
      case BoolValue(b) => if b then 1 else 0
  }

  /** The store's boolean read: false for an absent key, integers read as "non-zero". */
  function BoolFor(store: Store, key: string): (r: bool)
    ensures key !in store ==> !r
    ensures key in store && store[key].BoolValue? ==> r == store[key].b
  {
    if key !in store then false
    else match store[key]
      case BoolValue(b) => b
      case IntValue(i) => i != 0
  }

  datatype Settings = Settings(firstDayOfWeek: FirstDayOfWeek, useCalendarIcon: bool, showWeekNumbers: bool)

  /** Decodes a stored first-day integer; integers that name no case fall back to Monday. */
  function DecodeFirstDayOfWeek(i: int): (f: FirstDayOfWeek)
    ensures f == Sunday <==> i == 0
  {
    FromRawValue(i).GetOr(Monday)
  }

  /** Load-with-defaults, as done once when the settings object is created. */
  function Load(store: Store): (s: Settings)
    ensures s.firstDayOfWeek == Sunday <==> IntegerFor(store, FirstDayOfWeekKey) == 0
    ensures UseCalendarIconKey !in store ==> s.useCalendarIcon
    ensures UseCalendarIconKey in store ==> s.useCalendarIcon == BoolFor(store, UseCalendarIconKey)
    ensures ShowWeekNumbersKey !in store ==> !s.showWeekNumbers
    ensures s.showWeekNumbers == BoolFor(store, ShowWeekNumbersKey)
  {
    var firstDay := DecodeFirstDayOfWeek(IntegerFor(store, FirstDayOfWeekKey));
    var useIcon := if UseCalendarIconKey !in store then true else BoolFor(store, UseCalendarIconKey);
    Settings(firstDay, useIcon, BoolFor(store, ShowWeekNumbersKey))
  }

  /** The settings object: the in-memory values and the store they are written through to. */
  datatype Manager = Manager(settings: Settings, store: Store)

  /**
   Creating the settings object reads each key with its default; the
   assignments in the initializer write nothing back to the store.
   */
  function Init(store: Store): (m: Manager)
    ensures m.store == store
    ensures m.settings.firstDayOfWeek == Sunday <==> IntegerFor(store, FirstDayOfWeekKey) == 0
    ensures m.settings.useCalendarIcon <==>
      (UseCalendarIconKey !in store || BoolFor(store, UseCalendarIconKey))
    ensures m.settings.showWeekNumbers <==>
      (ShowWeekNumbersKey in store && BoolFor(store, ShowWeekNumbersKey))
    ensures Consistent(m)
  {
    Manager(Load(store), store)
  }

  /** The in-memory values are what loading the store again would give. */
  predicate Consistent(m: Manager) {
    Load(m.store) == m.settings
  }

  /** `k` maps to the same entry (or is absent) in both stores. */
  predicate SameEntry(a: Store, b: Store, k: string) {
    (k in a <==> k in b) && (k in a ==> a[k] == b[k])
  }

  /** Assigning `firstDayOfWeek`: the observer writes its raw value under its own key. */
  function SetFirstDayOfWeek(m: Manager, f: FirstDayOfWeek): (r: Manager)
    ensures r.settings.firstDayOfWeek == f
    ensures r.settings.useCalendarIcon == m.settings.useCalendarIcon
    ensures r.settings.showWeekNumbers == m.settings.showWeekNumbers
    ensures FirstDayOfWeekKey in r.store && r.store[FirstDayOfWeekKey] == IntValue(RawValue(f))
    ensures forall k :: k != FirstDayOfWeekKey ==> SameEntry(m.store, r.store, k)
    ensures Load(r.store).firstDayOfWeek == f
    ensures Consistent(m) ==> Consistent(r)
  {
    Manager(m.settings.(firstDayOfWeek := f), m.store[FirstDayOfWeekKey := IntValue(RawValue(f))])
  }

  /** Assigning `useCalendarIcon`: the observer writes the boolean under its own key. */
  function SetUseCalendarIcon(m: Manager, b: bool): (r: Manager)
    ensures r.settings.useCalendarIcon == b
    ensures r.settings.firstDayOfWeek == m.settings.firstDayOfWeek
    ensures r.settings.showWeekNumbers == m.settings.showWeekNumbers
    ensures UseCalendarIconKey in r.store && r.store[UseCalendarIconKey] == BoolValue(b)
    ensures forall k :: k != UseCalendarIconKey ==> SameEntry(m.store, r.store, k)
    ensures Load(r.store).useCalendarIcon == b
    ensures Consistent(m) ==> Consistent(r)
  {
    Manager(m.settings.(useCalendarIcon := b), m.store[UseCalendarIconKey := BoolValue(b)])
  }

  /** Assigning `showWeekNumbers`: the observer writes the boolean under its own key. */
  function SetShowWeekNumbers(m: Manager, b: bool): (r: Manager)
    ensures r.settings.showWeekNumbers == b
    ensures r.settings.firstDayOfWeek == m.settings.firstDayOfWeek
    ensures r.settings.useCalendarIcon == m.settings.useCalendarIcon
    ensures ShowWeekNumbersKey in r.store && r.store[ShowWeekNumbersKey] == BoolValue(b)
    ensures forall k :: k != ShowWeekNumbersKey ==> SameEntry(m.store, r.store, k)
    ensures Load(r.store).showWeekNumbers == b
    ensures Consistent(m) ==> Consistent(r)
  {
    Manager(m.settings.(showWeekNumbers := b), m.store[ShowWeekNumbersKey := BoolValue(b)])
  }

  /** Encoding a first day and decoding it again gives it back. */
  lemma FirstDayOfWeekRoundTrip(f: FirstDayOfWeek)
    ensures DecodeFirstDayOfWeek(RawValue(f)) == f
    ensures FromRawValue(RawValue(f)) == Some(f)
  {
  }

  /**
   With nothing stored, the first day decodes to Sunday: the integer read of an
   absent key is 0, which is Sunday's raw value, so the Monday fallback never applies.
   */
  lemma FreshInstallIsSunday()
    ensures Load(map[]) == Settings(Sunday, true, false)
  {
  }

  /** Only stored integers other than 0 and 1 reach the Monday fallback. */
  lemma MondayFallback(store: Store)
    requires FirstDayOfWeekKey in store && store[FirstDayOfWeekKey].IntValue?
    ensures Load(store).firstDayOfWeek ==
      (if store[FirstDayOfWeekKey].i == 0 then Sunday else Monday)
  {
  }

  /** Re-creating the settings object after an assignment reloads exactly the state in memory. */
  lemma {:induction false} ReloadAfterSet(m: Manager, f: FirstDayOfWeek, icon: bool, weeks: bool)
    requires Consistent(m)
    ensures Init(SetFirstDayOfWeek(m, f).store) == SetFirstDayOfWeek(m, f)
    ensures Init(SetUseCalendarIcon(m, icon).store) == SetUseCalendarIcon(m, icon)
    ensures Init(SetShowWeekNumbers(m, weeks).store) == SetShowWeekNumbers(m, weeks)
  {
  }

  /** The write-back is unconditional, so assigning the same value twice leaves the same state as once. */
  lemma SetIdempotent(m: Manager, f: FirstDayOfWeek, icon: bool, weeks: bool)
    ensures SetFirstDayOfWeek(SetFirstDayOfWeek(m, f), f) == SetFirstDayOfWeek(m, f)
    ensures SetUseCalendarIcon(SetUseCalendarIcon(m, icon), icon) == SetUseCalendarIcon(m, icon)
    ensures SetShowWeekNumbers(SetShowWeekNumbers(m, weeks), weeks) == SetShowWeekNumbers(m, weeks)
  {
  }

  /**
   Assigning the value already in memory still writes the key: a store that held
   an out-of-range integer (read as Monday) is rewritten to Monday's raw value.
   */
  lemma SetEqualValueRewrites()
    ensures var m := Init(map[FirstDayOfWeekKey := IntValue(5)]);
      m.settings.firstDayOfWeek == Monday &&
      SetFirstDayOfWeek(m, Monday).store != m.store &&
      SetFirstDayOfWeek(m, Monday).store[FirstDayOfWeekKey] == IntValue(1)
  {
  }
}
