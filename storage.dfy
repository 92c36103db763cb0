/**
  The storage service: notes, preferences and encrypted-note records kept as
  JSON under three keys of the browser's key-value store.

  A stored entry is the JSON value it parses to, or `Corrupt` when its text
  does not parse; writing a value and reading it back gives the same value.
*/
module Storage {
  import opened Base
  import opened Strings
  import Js

  const NotesKey := "notes_app_notes"
  const PreferencesKey := "notes_app_preferences"
  const EncryptedNotesKey := "notes_app_encrypted"
  const Version := "1.0"
  const EncryptedPlaceholder := "[ENCRYPTED]"

  datatype Stored = Json(value: Js.Value) | Corrupt

  type Store = map<string, Stored>

  /** The preference defaults. */
  const Defaults: map<string, Js.Value> := map[
    "theme" := Js.Str("light"),
    "fontSize" := Js.Str("16"),
    "fontFamily" := Js.Str("system"),
    "autoSave" := Js.Bool(true),
    "autoSaveInterval" := Js.Number(300),
    "enableSpellCheck" := Js.Bool(true),
    "sidebarWidth" := Js.Number(320),
    "lastOpenedNote" := Js.Null,
    "recentNotes" := Js.Array([]),
    "maxRecentNotes" := Js.Number(10)]

  /** Reading a property of `null` or `undefined` throws a TypeError. */
  predicate Nullish(v: Js.Value) {
    v.Null? || v.Undefined?
  }

  /** `{ ...v }`: the own enumerable properties of a value; an array or a string spreads into its indices. */
  function Spread(v: Js.Value): map<string, Js.Value> {
    match v
    case Object(fields) => fields
    case Array(items) => map i | 0 <= i < |items| :: NatToString(i) := items[i]
    case Str(s) => map i | 0 <= i < |s| :: NatToString(i) := Js.Str([s[i]])
    case _ => map[]
  }

  /** The `v || []` idiom. */
  function OrEmptyArray(v: Js.Value): Js.Value {
    if Js.Truthy(v) then v else Js.Array([])
  }

  // ---------------------------------------------------------------------
  // Reads

  /** `loadNotes`: nothing or unreadable data gives `[]`, a bare array is returned as is, otherwise `.notes || []`. */
  function LoadNotes(store: Store): Js.Value {
    if NotesKey !in store || store[NotesKey].Corrupt? then Js.Array([])
    else
      var data := store[NotesKey].value;
      if data.Array? then data else OrEmptyArray(Js.Get(data, "notes"))
  }

  /** `loadPreferences`: the defaults, overridden by whatever is stored. */
  function LoadPreferences(store: Store): map<string, Js.Value> {
    if PreferencesKey !in store || store[PreferencesKey].Corrupt? then Defaults
    else Defaults + Spread(store[PreferencesKey].value)
  }

  /** `loadEncryptedNotes`: the stored value, or `[]` when nothing readable is stored. */
  function LoadEncryptedNotes(store: Store): Js.Value {
    if EncryptedNotesKey !in store || store[EncryptedNotesKey].Corrupt? then Js.Array([])
    else store[EncryptedNotesKey].value
  }

  /** `getRecentNotes`. */
  function GetRecentNotes(store: Store): Js.Value {
    OrEmptyArray(LoadPreferences(store)["recentNotes"])
  }

  // ---------------------------------------------------------------------
  // What the writes store

  /** The object `saveNotes` stores. */
  function NotesData(notes: Js.Value, now: string): Js.Value {
    Js.Object(map["notes" := notes, "lastSaved" := Js.Str(now), "version" := Js.Str(Version)])
  }

  /** The object `savePreferences` stores: the defaults, overridden by `prefs`, stamped with `lastUpdated`. */
  function PreferencesData(prefs: Js.Value, now: string): Js.Value {
    Js.Object(Defaults + Spread(prefs) + map["lastUpdated" := Js.Str(now)])
  }

  /** `prefs[key] = value` on the loaded preferences. */
  function UpdatedPreferences(store: Store, key: string, value: Js.Value): Js.Value {
    Js.Object(Js.Assign(LoadPreferences(store), key, value))
  }

  /** Where `findIndex(note => note.id === id)` stops: a match, the end, or a record it cannot read. */
  datatype Lookup = Found(index: nat) | Absent | Throws

  predicate HasRecordId(v: Js.Value, id: Js.Value) {
    !Nullish(v) && Js.Get(v, "id") == id
  }

  /** Where the search for `id` stops: a record it cannot read, or a match. */
  function StopsAt(id: Js.Value): Js.Value -> bool {
    (v: Js.Value) => Nullish(v) || Js.Get(v, "id") == id
  }

  /** The outcome of `findIndex(note => note.id === id)` over `items`. */
  function LookupId(items: seq<Js.Value>, id: Js.Value): (r: Lookup)
    ensures r.Found? ==> r.index < |items| && HasRecordId(items[r.index], id)
                         && forall j :: 0 <= j < r.index ==> !HasRecordId(items[j], id)
    ensures r.Absent? ==> forall j :: 0 <= j < |items| ==> !HasRecordId(items[j], id)
  {
    var k := FirstIndex(items, StopsAt(id));
    if k == |items| then Absent else if Nullish(items[k]) then Throws else Found(k)
  }

  /**
    The outcome of `findIndex(note => note.id === record.id)`. The callback
    reads the record's id only when it runs, so a nullish record throws on a
    non-empty list and is simply not found in an empty one.
  */
  function RecordLookup(items: seq<Js.Value>, record: Js.Value): Lookup {
    if Nullish(record) then (if items == [] then Absent else Throws)
    else LookupId(items, Js.Get(record, "id"))
  }

  /** The list `saveEncryptedNote` writes back: the record replaces the match, or is appended. */
  function Upsert(items: seq<Js.Value>, record: Js.Value, at: Lookup): seq<Js.Value>
    requires at != Throws && (at.Found? ==> at.index < |items|)
  {
    if at.Found? then items[at.index := record] else items + [record]
  }

  /** The records `deleteEncryptedNote` keeps. */
  function IdOtherThan(id: Js.Value): Js.Value -> bool {
    (v: Js.Value) => Js.Get(v, "id") != id
  }

  /**
    The end argument `slice` makes of `v`: the whole length for `undefined`,
    otherwise `v` read as a number (so `"5"` and `[5]` are 5), NaN being 0
    and an infinity reaching past the matching end.
  */
  function SliceEnd(v: Js.Value, length: nat): int {
    if v.Undefined? then length
    else
      match Js.ToNumber(v)
      case Finite(n) => n
      case PosInfinity => length
      case NegInfinity => 0 - (length as int)
      case NaN => 0
  }

  /** The entry `addToRecentNotes` puts first. */
  function RecentEntry(noteId: string, noteTitle: string, accessedAt: string): Js.Value {
    Js.Object(map["id" := Js.Str(noteId), "title" := Js.Str(noteTitle), "accessedAt" := Js.Str(accessedAt)])
  }

  /**
    The recent list after `addToRecentNotes`: earlier entries for the note
    dropped, the new entry first, cut to `max`. `None` where the source
    throws (the stored list is not an array, or holds `null`).
  */
  function RecentAfterAdd(recent: Js.Value, max: Js.Value, entry: Js.Value, noteId: string): Option<seq<Js.Value>> {
    var list := OrEmptyArray(recent);
    if !list.Array? || exists i | 0 <= i < |list.items| :: Nullish(list.items[i]) then None
    else
      var added := [entry] + Filter(list.items, IdOtherThan(Js.Str(noteId)));
      Some(Slice(added, 0, SliceEnd(max, |added|)))
  }

  /** Each encrypted record with its content replaced by the placeholder. */
  function Redacted(items: seq<Js.Value>): (r: seq<Js.Value>)
    ensures |r| == |items|
  {
    seq(|items|, i requires 0 <= i < |items| => Js.Object(Spread(items[i])["content" := Js.Str(EncryptedPlaceholder)]))
  }

  /** The object `exportData` stringifies; `None` where it returns `null`. */
  function ExportData(store: Store, now: string): Option<Js.Value> {
    var encrypted := LoadEncryptedNotes(store);
    if !encrypted.Array? then None
    else Some(Js.Object(map[
      "notes" := LoadNotes(store),
      "preferences" := Js.Object(LoadPreferences(store)),
      "encryptedNotes" := Js.Array(Redacted(encrypted.items)),
      "exportDate" := Js.Str(now),
      "version" := Js.Str(Version)]))
  }

  /** The store after `clearAllData`. */
  function Cleared(store: Store): (r: Store)
    ensures NotesKey !in r && PreferencesKey !in r && EncryptedNotesKey !in r
    ensures forall k :: k in store && k != NotesKey && k != PreferencesKey && k != EncryptedNotesKey ==> k in r && r[k] == store[k]
  {
    store - {NotesKey, PreferencesKey, EncryptedNotesKey}
  }

  // ---------------------------------------------------------------------
  // The service

  class StorageService {
    var store: Store

    constructor (initial: Store)
      ensures store == initial
    {
      store := initial;
    }

    method SaveNotes(notes: Js.Value, now: string) returns (ok: bool)
      modifies this
      ensures ok && store == old(store)[NotesKey := Json(NotesData(notes, now))]
    {
      store := store[NotesKey := Json(NotesData(notes, now))];
      ok := true;
    }

    method SavePreferences(prefs: Js.Value, now: string) returns (ok: bool)
      modifies this
      ensures ok && store == old(store)[PreferencesKey := Json(PreferencesData(prefs, now))]
    {
      store := store[PreferencesKey := Json(PreferencesData(prefs, now))];
      ok := true;
    }

    /** `updatePreference`: load, assign one key, save. */
    method UpdatePreference(key: string, value: Js.Value, now: string) returns (ok: bool)
      modifies this
      ensures ok && store == old(store)[PreferencesKey := Json(PreferencesData(UpdatedPreferences(old(store), key, value), now))]
    {
      var preferences := LoadPreferences(store);
      preferences := Js.Assign(preferences, key, value);
      ok := SavePreferences(Js.Object(preferences), now);
    }

    /** `addToRecentNotes`; `completed` is false where the source throws, and then nothing is written. */
    method AddToRecentNotes(noteId: string, noteTitle: string, accessedAt: string) returns (completed: bool)
      modifies this
      ensures var prefs := LoadPreferences(old(store));
              var recent := RecentAfterAdd(prefs["recentNotes"], prefs["maxRecentNotes"], RecentEntry(noteId, noteTitle, accessedAt), noteId);
              && (completed <==> recent.Some?)
              && (completed ==> store == old(store)[PreferencesKey := Json(PreferencesData(Js.Object(prefs["recentNotes" := Js.Array(recent.value)]), accessedAt))])
              && (!completed ==> store == old(store))
    {
      var preferences := LoadPreferences(store);
      var recentNotes := RecentAfterAdd(preferences["recentNotes"], preferences["maxRecentNotes"], RecentEntry(noteId, noteTitle, accessedAt), noteId);
      if recentNotes.None? {
        return false;
      }
      preferences := preferences["recentNotes" := Js.Array(recentNotes.value)];
      var _ := SavePreferences(Js.Object(preferences), accessedAt);
      completed := true;
    }

    /**
      `findIndex(note => note.id === record.id)`, one record at a time: each
      call reads the stored record's id first, then the saved record's.
    */
    static method FindIndex(items: seq<Js.Value>, record: Js.Value) returns (r: Lookup)
      ensures r == RecordLookup(items, record)
    {
      var i := 0;
      while i < |items|
        invariant 0 <= i <= |items|
        invariant i > 0 ==> !Nullish(record)
        invariant forall j :: 0 <= j < i ==> !Nullish(items[j]) && Js.Get(items[j], "id") != Js.Get(record, "id")
      {
        if Nullish(items[i]) || Nullish(record) {
          if !Nullish(record) {
            FirstIndexAt(items, StopsAt(Js.Get(record, "id")), i);
          }
          return Throws;
        }
        if Js.Get(items[i], "id") == Js.Get(record, "id") {
          FirstIndexAt(items, StopsAt(Js.Get(record, "id")), i);
          return Found(i);
        }
        i := i + 1;
      }
      if !Nullish(record) {
        FirstIndexAt(items, StopsAt(Js.Get(record, "id")), i);
      }
      return Absent;
    }

    /**
      `saveEncryptedNote`: replace the first record with the same id, or
      append; false where the source catches an error.
    */
    method SaveEncryptedNote(noteData: Js.Value) returns (ok: bool)
      modifies this
      ensures var list := LoadEncryptedNotes(old(store));
              var at := if list.Array? then RecordLookup(list.items, noteData) else Throws;
              && (ok <==> at != Throws)
              && (ok ==> store == old(store)[EncryptedNotesKey := Json(Js.Array(Upsert(list.items, noteData, at)))])
              && (!ok ==> store == old(store))
    {
      var encryptedNotes := LoadEncryptedNotes(store);
      if !encryptedNotes.Array? {
        return false;
      }
      var existingIndex := FindIndex(encryptedNotes.items, noteData);
      if existingIndex.Throws? {
        return false;
      }
      var items := encryptedNotes.items;
      if existingIndex.Found? {
        items := items[existingIndex.index := noteData];
      } else {
        items := items + [noteData];
      }
      store := store[EncryptedNotesKey := Json(Js.Array(items))];
      ok := true;
    }

    /** `deleteEncryptedNote`: keep the records with another id; false where the source catches an error. */
    method DeleteEncryptedNote(noteId: string) returns (ok: bool)
      modifies this
      ensures var list := LoadEncryptedNotes(old(store));
              && (ok <==> list.Array? && forall i :: 0 <= i < |list.items| ==> !Nullish(list.items[i]))
              && (ok ==> store == old(store)[EncryptedNotesKey := Json(Js.Array(Filter(list.items, IdOtherThan(Js.Str(noteId)))))])
              && (!ok ==> store == old(store))
    {
      var encryptedNotes := LoadEncryptedNotes(store);
      if !encryptedNotes.Array? || exists i | 0 <= i < |encryptedNotes.items| :: Nullish(encryptedNotes.items[i]) {
        return false;
      }
      var filteredNotes := Filter(encryptedNotes.items, IdOtherThan(Js.Str(noteId)));
      store := store[EncryptedNotesKey := Json(Js.Array(filteredNotes))];
      ok := true;
    }

    /** `importData` with the text already parsed (`None` where `JSON.parse` throws). */
    method ImportData(parsed: Option<Js.Value>, now: string) returns (ok: bool)
      modifies this
      ensures ok <==> parsed.Some? && !Nullish(parsed.value)
      ensures ok ==>
                var data := parsed.value;
                var s1 := if Js.Truthy(Js.Get(data, "notes")) then old(store)[NotesKey := Json(NotesData(Js.Get(data, "notes"), now))] else old(store);
                store == if Js.Truthy(Js.Get(data, "preferences")) then s1[PreferencesKey := Json(PreferencesData(Js.Get(data, "preferences"), now))] else s1
      ensures !ok ==> store == old(store)
    {
      if parsed.None? || Nullish(parsed.value) {
        return false;
      }
      var data := parsed.value;
      if Js.Truthy(Js.Get(data, "notes")) {
        var _ := SaveNotes(Js.Get(data, "notes"), now);
      }
      if Js.Truthy(Js.Get(data, "preferences")) {
        var _ := SavePreferences(Js.Get(data, "preferences"), now);
      }
      ok := true;
    }

    method ClearAllData() returns (ok: bool)
      modifies this
      ensures ok && store == Cleared(old(store))
    {
      store := store - {NotesKey};
      store := store - {PreferencesKey};
      store := store - {EncryptedNotesKey};
      ok := true;
    }
  }

  // ---------------------------------------------------------------------
  // Properties

  /** Notes saved by `saveNotes` are what `loadNotes` returns, unless they are falsy (then `[]`). */
  lemma SaveThenLoadNotes(store: Store, notes: Js.Value, now: string)
    ensures LoadNotes(store[NotesKey := Json(NotesData(notes, now))]) == OrEmptyArray(notes)
  {
  }

  /** `loadNotes` on an empty store, on unreadable data and on the legacy bare-array format. */
  lemma LoadNotesCases(store: Store, legacy: seq<Js.Value>)
    ensures LoadNotes(map[]) == Js.Array([])
    ensures LoadNotes(store[NotesKey := Corrupt]) == Js.Array([])
    ensures LoadNotes(store[NotesKey := Json(Js.Array(legacy))]) == Js.Array(legacy)
  {
  }

  /**
    Nothing stored gives the defaults; otherwise every default key is
    present, and a stored key overrides its default.
  */
  lemma LoadPreferencesMerges(store: Store)
    ensures PreferencesKey !in store ==> LoadPreferences(store) == Defaults
    ensures forall k :: k in Defaults ==> k in LoadPreferences(store)
    ensures PreferencesKey in store && store[PreferencesKey].Json? && store[PreferencesKey].value.Object? ==>
              var stored := store[PreferencesKey].value.fields;
              forall k :: k in stored ==> LoadPreferences(store)[k] == stored[k]
  {
  }

  /**
    After `updatePreference(key, value)` the key reads back as `value`, except
    that `__proto__` is not stored when it was not already a preference; every
    other loaded key is unchanged except the stamp.
  */
  lemma UpdateThenLoadPreference(store: Store, key: string, value: Js.Value, now: string)
    requires key != "lastUpdated"
    ensures var after := store[PreferencesKey := Json(PreferencesData(UpdatedPreferences(store, key, value), now))];
            && (key != Js.ProtoKey || key in LoadPreferences(store) ==> LoadPreferences(after)[key] == value)
            && (key == Js.ProtoKey && key !in LoadPreferences(store) ==> key !in LoadPreferences(after))
            && LoadPreferences(after)["lastUpdated"] == Js.Str(now)
            && forall k :: k in LoadPreferences(store) && k != key && k != "lastUpdated" ==> LoadPreferences(after)[k] == LoadPreferences(store)[k]
  {
    var after := store[PreferencesKey := Json(PreferencesData(UpdatedPreferences(store, key, value), now))];
    assert LoadPreferences(after) == Defaults + (Defaults + Js.Assign(LoadPreferences(store), key, value) + map["lastUpdated" := Js.Str(now)]);
    ReloadAssigned(Defaults, LoadPreferences(store), key, value, Js.Str(now));
  }

  /** Reloading assigned preferences over defaults they already include. */
  lemma ReloadAssigned(defaults: map<string, Js.Value>, prefs: map<string, Js.Value>, key: string, value: Js.Value, stamp: Js.Value)
    requires defaults.Keys <= prefs.Keys && key != "lastUpdated"
    ensures var loaded := defaults + (defaults + Js.Assign(prefs, key, value) + map["lastUpdated" := stamp]);
            && (key != Js.ProtoKey || key in prefs ==> loaded[key] == value)
            && (key == Js.ProtoKey && key !in prefs ==> key !in loaded)
            && loaded["lastUpdated"] == stamp
            && forall k :: k in prefs && k != key && k != "lastUpdated" ==> loaded[k] == prefs[k]
  {
  }

  /** After `clearAllData` none of the three keys is present, and loading gives the empty lists and the defaults. */
  lemma ClearThenLoad(store: Store)
    ensures LoadNotes(Cleared(store)) == Js.Array([])
    ensures LoadPreferences(Cleared(store)) == Defaults
    ensures LoadEncryptedNotes(Cleared(store)) == Js.Array([])
  {
  }

  /**
    When a record has the same id, the first such position is replaced and
    nothing else changes; otherwise the record is appended.
  */
  lemma UpsertPlacement(items: seq<Js.Value>, record: Js.Value)
    requires !Nullish(record) && LookupId(items, Js.Get(record, "id")) != Throws
    ensures var at := LookupId(items, Js.Get(record, "id"));
            var r := Upsert(items, record, at);
            && (at.Found? ==> |r| == |items| && r[at.index] == record
                              && (forall j :: 0 <= j < |items| && j != at.index ==> r[j] == items[j])
                              && forall j :: 0 <= j < at.index ==> !HasRecordId(items[j], Js.Get(record, "id")))
            && (at.Absent? ==> r == items + [record] && forall j :: 0 <= j < |items| ==> !HasRecordId(items[j], Js.Get(record, "id")))
  {
  }

  /** Ids are pairwise distinct among readable records. */
  predicate UniqueRecordIds(items: seq<Js.Value>) {
    && (forall i :: 0 <= i < |items| ==> !Nullish(items[i]))
    && (forall i, j :: 0 <= i < j < |items| ==> Js.Get(items[i], "id") != Js.Get(items[j], "id"))
  }

  /** `saveEncryptedNote` keeps the record ids unique. */
  lemma UpsertKeepsIdsUnique(items: seq<Js.Value>, record: Js.Value)
    requires UniqueRecordIds(items) && !Nullish(record)
    ensures LookupId(items, Js.Get(record, "id")) != Throws
    ensures UniqueRecordIds(Upsert(items, record, LookupId(items, Js.Get(record, "id"))))
  {
  }

  /** After `deleteEncryptedNote(id)` no record with that id remains, the rest keep their order, and an absent id changes nothing. */
  lemma DeleteRecordProperties(items: seq<Js.Value>, noteId: string)
    ensures forall i :: 0 <= i < |Filter(items, IdOtherThan(Js.Str(noteId)))| ==> Js.Get(Filter(items, IdOtherThan(Js.Str(noteId)))[i], "id") != Js.Str(noteId)
    ensures IsSubsequence(Filter(items, IdOtherThan(Js.Str(noteId))), items)
    ensures (forall i :: 0 <= i < |items| ==> Js.Get(items[i], "id") != Js.Str(noteId)) ==> Filter(items, IdOtherThan(Js.Str(noteId))) == items
  {
    FilterIsSubsequence(items, IdOtherThan(Js.Str(noteId)));
    if forall i :: 0 <= i < |items| ==> Js.Get(items[i], "id") != Js.Str(noteId) {
      FilterKeepsAll(items, IdOtherThan(Js.Str(noteId)));
    }
  }

  /**
    With a positive numeric limit, the new entry comes first, its id appears
    nowhere else, the list is no longer than the limit, and the remaining
    entries keep their earlier relative order.
  */
  lemma RecentAfterAddProperties(recent: Js.Value, limit: Js.Value, max: int, noteId: string, noteTitle: string, accessedAt: string)
    requires Js.ToNumber(limit) == Js.Finite(max) && max >= 1
    requires RecentAfterAdd(recent, limit, RecentEntry(noteId, noteTitle, accessedAt), noteId).Some?
    ensures var r := RecentAfterAdd(recent, limit, RecentEntry(noteId, noteTitle, accessedAt), noteId).value;
            && |r| >= 1 && r[0] == RecentEntry(noteId, noteTitle, accessedAt)
            && |r| <= max
            && (forall i :: 1 <= i < |r| ==> Js.Get(r[i], "id") != Js.Str(noteId))
            && IsSubsequence(r[1..], OrEmptyArray(recent).items)
  {
    var entry := RecentEntry(noteId, noteTitle, accessedAt);
    RecentAfterAddPrefix(recent, limit, max, entry, noteId);
    KeptPrefixProperties(OrEmptyArray(recent).items, entry, noteId, max);
  }

  /** The first `max` entries of the new entry followed by the kept ones. */
  lemma KeptPrefixProperties(items: seq<Js.Value>, entry: Js.Value, noteId: string, max: int)
    requires max >= 1
    ensures var added := [entry] + Filter(items, IdOtherThan(Js.Str(noteId)));
            var r := added[..if max < |added| then max else |added|];
            && |r| >= 1 && r[0] == entry
            && |r| <= max
            && (forall i :: 1 <= i < |r| ==> Js.Get(r[i], "id") != Js.Str(noteId))
            && IsSubsequence(r[1..], items)
  {
    var p := IdOtherThan(Js.Str(noteId));
    var kept := Filter(items, p);
    var added := [entry] + kept;
    var n := if max < |added| then max else |added|;
    HeadAndKept(entry, kept, n);
    FilterIsSubsequence(items, p);
    PrefixOfSubsequence(kept, items, n - 1);
  }

  /** A successful `addToRecentNotes` keeps the first `max` entries of the new entry followed by the kept ones. */
  lemma RecentAfterAddPrefix(recent: Js.Value, limit: Js.Value, max: int, entry: Js.Value, noteId: string)
    requires Js.ToNumber(limit) == Js.Finite(max) && max >= 1
    requires RecentAfterAdd(recent, limit, entry, noteId).Some?
    ensures var added := [entry] + Filter(OrEmptyArray(recent).items, IdOtherThan(Js.Str(noteId)));
            RecentAfterAdd(recent, limit, entry, noteId).value == added[..if max < |added| then max else |added|]
  {
  }

  /** A limit that reads as a number cuts at that number. */
  lemma SliceEndOfNumber(limit: Js.Value, max: int, length: nat)
    requires Js.ToNumber(limit) == Js.Finite(max)
    ensures SliceEnd(limit, length) == max
  {
    assert !limit.Undefined?;
  }

  /**
    The limit is read as `slice` reads it: a numeric string or a one-number
    array cuts like the number, `undefined` keeps everything, and an object
    cuts to nothing.
  */
  lemma SliceEndReadsLimits(n: int, length: nat)
    ensures SliceEnd(Js.Str(IntToString(n)), length) == n
    ensures SliceEnd(Js.Array([Js.Number(n)]), length) == n
    ensures SliceEnd(Js.Undefined, length) == length
    ensures SliceEnd(Js.Object(map[]), length) == 0
  {
    Js.NumeralStringReadsBack(n);
    Js.NumberArrayReadsBack(n);
    SliceEndOfNumber(Js.Str(IntToString(n)), n, length);
    SliceEndOfNumber(Js.Array([Js.Number(n)]), n, length);
    SliceEndOfObject(map[], length);
  }

  /** An object is not a number, so it cuts to nothing. */
  lemma SliceEndOfObject(fields: map<string, Js.Value>, length: nat)
    ensures SliceEnd(Js.Object(fields), length) == 0
  {
    ObjectIsNaN(fields);
  }

  /** An object reads as `"[object Object]"`, which is not a number. */
  lemma ObjectIsNaN(fields: map<string, Js.Value>)
    ensures Js.ToNumber(Js.Object(fields)) == Js.NaN
  {
    var t := "[object Object]";
    assert Js.ToJsString(Js.Object(fields)) == t;
    TrimOfTrimmed(t);
    assert !IsDigit(t[0]) && t[0] != '+' && t[0] != '-';
  }

  /** The first `n` entries of `[entry] + kept`. */
  lemma HeadAndKept(entry: Js.Value, kept: seq<Js.Value>, n: nat)
    requires 1 <= n <= |kept| + 1
    ensures var r := ([entry] + kept)[..n];
            |r| == n && r[0] == entry && r[1..] == kept[..n - 1]
            && forall i :: 1 <= i < n ==> r[i] == kept[i - 1]
  {
  }

  /** On a store with no preferences, `addToRecentNotes` never throws and leaves just the new entry. */
  lemma FirstRecentNote(noteId: string, noteTitle: string, accessedAt: string)
    ensures var prefs := LoadPreferences(map[]);
            RecentAfterAdd(prefs["recentNotes"], prefs["maxRecentNotes"], RecentEntry(noteId, noteTitle, accessedAt), noteId)
              == Some([RecentEntry(noteId, noteTitle, accessedAt)])
  {
    assert Filter([], IdOtherThan(Js.Str(noteId))) == [];
  }

  /** `exportData` keeps every encrypted record and every field of it except `content`, which becomes the placeholder. */
  lemma ExportRedactsContent(store: Store, now: string)
    requires LoadEncryptedNotes(store).Array?
    ensures ExportData(store, now).Some?
    ensures var items := LoadEncryptedNotes(store).items;
            var exported := ExportData(store, now).value.fields["encryptedNotes"].items;
            && |exported| == |items|
            && (forall i :: 0 <= i < |items| ==> Js.Get(exported[i], "content") == Js.Str(EncryptedPlaceholder))
            && (forall i, k :: 0 <= i < |items| && items[i].Object? && k in items[i].fields && k != "content" ==>
                  Js.Get(exported[i], k) == items[i].fields[k])
  {
  }

  // ---------------------------------------------------------------------
  // The defaults object shared with callers

  /**
    `updatePreference` as written, on the store together with the in-memory
    defaults object: when nothing is stored, `loadPreferences` hands out the
    defaults object itself, so the assignment also rewrites the defaults.
  */
  function UpdatePreferenceAsWritten(store: Store, defaults: map<string, Js.Value>, key: string, value: Js.Value, now: string)
    : (Store, map<string, Js.Value>)
  {
    var aliased := PreferencesKey !in store || store[PreferencesKey].Corrupt?;
    var loaded := if aliased then defaults else defaults + Spread(store[PreferencesKey].value);
    var newDefaults := if aliased then Js.Assign(defaults, key, value) else defaults;
    var saved := Js.Object(newDefaults + Js.Assign(loaded, key, value) + map["lastUpdated" := Js.Str(now)]);
    (store[PreferencesKey := Json(saved)], newDefaults)
  }

  /** `loadPreferences` as written, against whatever the defaults object holds now. */
  function LoadPreferencesAsWritten(store: Store, defaults: map<string, Js.Value>): map<string, Js.Value> {
    if PreferencesKey !in store || store[PreferencesKey].Corrupt? then defaults
    else defaults + Spread(store[PreferencesKey].value)
  }

  /**
    On a fresh store, setting the theme and then clearing all data leaves the
    theme set: the cleared store still loads as "dark" instead of the default
    "light".
  */
  lemma ClearKeepsUpdatedDefault(now: string)
    ensures var (store, defaults) := UpdatePreferenceAsWritten(map[], Defaults, "theme", Js.Str("dark"), now);
            LoadPreferencesAsWritten(Cleared(store), defaults)["theme"] == Js.Str("dark")
    ensures Defaults["theme"] == Js.Str("light")
  {
  }

  /**
    `addToRecentNotes` as written, on the store together with the in-memory
    defaults object: when nothing is stored, the assignment of the new recent
    list lands on the defaults object itself.
  */
  function AddToRecentNotesAsWritten(store: Store, defaults: map<string, Js.Value>, noteId: string, noteTitle: string, accessedAt: string)
    : (Store, map<string, Js.Value>)
  {
    var aliased := PreferencesKey !in store || store[PreferencesKey].Corrupt?;
    var loaded := LoadPreferencesAsWritten(store, defaults);
    var recent := RecentAfterAdd(Js.Get(Js.Object(loaded), "recentNotes"), Js.Get(Js.Object(loaded), "maxRecentNotes"),
                                 RecentEntry(noteId, noteTitle, accessedAt), noteId);
    if recent.None? then (store, defaults)
    else
      var updated := loaded["recentNotes" := Js.Array(recent.value)];
      var newDefaults := if aliased then updated else defaults;
      var saved := Js.Object(newDefaults + updated + map["lastUpdated" := Js.Str(accessedAt)]);
      (store[PreferencesKey := Json(saved)], newDefaults)
  }

  /**
    On a fresh store, opening a note and then clearing all data leaves the
    note in the recent list: the cleared store still lists it, where the
    defaults list none.
  */
  lemma ClearKeepsRecentNote(noteId: string, noteTitle: string, accessedAt: string)
    ensures var (store, defaults) := AddToRecentNotesAsWritten(map[], Defaults, noteId, noteTitle, accessedAt);
            Js.Get(Js.Object(LoadPreferencesAsWritten(Cleared(store), defaults)), "recentNotes")
              == Js.Array([RecentEntry(noteId, noteTitle, accessedAt)])
    ensures Defaults["recentNotes"] == Js.Array([])
  {
    FirstRecentNote(noteId, noteTitle, accessedAt);
  }

  /** With the defaults never handed out, clearing forgets every recent note, whatever was stored before. */
  lemma ClearForgetsRecentNotes(store: Store)
    ensures GetRecentNotes(Cleared(store)) == Js.Array([])
  {
  }

  /** With the defaults never handed out, clearing always restores them, whatever was updated before. */
  lemma ClearAfterUpdateRestoresDefaults(store: Store, key: string, value: Js.Value, now: string)
    ensures var after := store[PreferencesKey := Json(PreferencesData(UpdatedPreferences(store, key, value), now))];
            LoadPreferences(Cleared(after)) == Defaults
  {
  }
}
