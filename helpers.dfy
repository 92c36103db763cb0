/**
  The shared helpers: the note ordering used for display, the validator
  applied to imported notes, preview truncation and the day labels.
*/
module Helpers {
  import opened Base
  import opened Strings
  import opened Notes
  import Js

  // ---------------------------------------------------------------------
  // sortNotes

  /** The comparator: pinned before unpinned, then the most recently updated first. */
  function Compare(a: Note, b: Note): int {
    if a.isPinned && !b.isPinned then -1
    else if !a.isPinned && b.isPinned then 1
    else b.updatedAt - a.updatedAt
  }

  /** `a` may come before `b` in the display order. */
  predicate Precedes(a: Note, b: Note) {
    (a.isPinned && !b.isPinned) || (a.isPinned == b.isPinned && a.updatedAt >= b.updatedAt)
  }

  predicate Sorted(s: seq<Note>) {
    forall i, j :: 0 <= i < j < |s| ==> Precedes(s[i], s[j])
  }

  /** A non-positive comparison is exactly "may come first". */
  lemma CompareMeansPrecedes(a: Note, b: Note)
    ensures Compare(a, b) <= 0 <==> Precedes(a, b)
    ensures Compare(a, b) > 0 ==> Precedes(b, a)
  {
  }

  lemma PrecedesTransitive(a: Note, b: Note, c: Note)
    requires Precedes(a, b) && Precedes(b, c)
    ensures Precedes(a, c)
  {
  }

  /** Puts `x` in front of the first element it may precede, so equal elements keep their input order. */
  function Insert(x: Note, s: seq<Note>): (r: seq<Note>)
    ensures multiset(r) == multiset(s) + multiset{x}
  {
    if s == [] then [x]
    else if Compare(x, s[0]) <= 0 then [x] + s
    else
      assert s == [s[0]] + s[1..];
      [s[0]] + Insert(x, s[1..])
  }

  /** Something every element may follow, prefixed to a sorted list, keeps it sorted. */
  lemma SortedCons(x: Note, s: seq<Note>)
    requires Sorted(s)
    requires forall j :: 0 <= j < |s| ==> Precedes(x, s[j])
    ensures Sorted([x] + s)
  {
    forall i, j | 0 <= i < j < |[x] + s| ensures Precedes(([x] + s)[i], ([x] + s)[j]) {
      assert ([x] + s)[j] == s[j - 1];
      if i > 0 {
        assert ([x] + s)[i] == s[i - 1];
      }
    }
  }

  lemma SortedTail(s: seq<Note>)
    requires Sorted(s) && s != []
    ensures Sorted(s[1..])
  {
    forall i, j | 0 <= i < j < |s[1..]| ensures Precedes(s[1..][i], s[1..][j]) {
      assert s[1..][i] == s[i + 1] && s[1..][j] == s[j + 1];
    }
  }

  /** A note that may precede `x` and every element of `s` may precede every element of `Insert(x, s)`. */
  lemma {:induction false} InsertBound(y: Note, x: Note, s: seq<Note>)
    requires Precedes(y, x)
    requires forall j :: 0 <= j < |s| ==> Precedes(y, s[j])
    ensures forall k :: 0 <= k < |Insert(x, s)| ==> Precedes(y, Insert(x, s)[k])
  {
    if s != [] && Compare(x, s[0]) > 0 {
      assert forall j :: 0 <= j < |s[1..]| ==> s[1..][j] == s[j + 1];
      InsertBound(y, x, s[1..]);
    }
  }

  /** Inserting into a sorted list keeps it sorted. */
  lemma {:induction false} InsertSorted(x: Note, s: seq<Note>)
    requires Sorted(s)
    ensures Sorted(Insert(x, s))
  {
    if s == [] {
    } else if Compare(x, s[0]) <= 0 {
      CompareMeansPrecedes(x, s[0]);
      forall j | 0 <= j < |s| ensures Precedes(x, s[j]) {
        if j > 0 { PrecedesTransitive(x, s[0], s[j]); }
      }
      SortedCons(x, s);
    } else {
      CompareMeansPrecedes(x, s[0]);
      SortedTail(s);
      InsertSorted(x, s[1..]);
      assert forall j :: 0 <= j < |s[1..]| ==> s[1..][j] == s[j + 1];
      InsertBound(s[0], x, s[1..]);
      SortedCons(s[0], Insert(x, s[1..]));
    }
  }

  /** `[...notes].sort(compare)`: a stable sort of a copy under the comparator. */
  function SortNotes(notes: seq<Note>): (r: seq<Note>)
    ensures Sorted(r)
    ensures multiset(r) == multiset(notes)
  {
    if notes == [] then []
    else
      assert notes == [notes[0]] + notes[1..];
      InsertSorted(notes[0], SortNotes(notes[1..]));
      Insert(notes[0], SortNotes(notes[1..]))
  }

  /**
    The sorted list holds the same notes, puts every pinned note before every
    unpinned one, and within the same pin state lists the most recently
    updated first.
  */
  lemma SortNotesOrder(notes: seq<Note>)
    ensures multiset(SortNotes(notes)) == multiset(notes) && |SortNotes(notes)| == |notes|
    ensures PinnedFirst(SortNotes(notes))
    ensures var r := SortNotes(notes);
            forall i, j :: 0 <= i < j < |r| && r[i].isPinned == r[j].isPinned ==> r[i].updatedAt >= r[j].updatedAt
  {
    var r := SortNotes(notes);
    assert |r| == |multiset(r)| == |multiset(notes)| == |notes|;
  }

  // ---------------------------------------------------------------------
  // validateNote and importNotes

  /** `validateNote`, read as the truth value `every` takes from it. */
  predicate ValidateNote(v: Js.Value) {
    && Js.Truthy(v)
    && Js.Get(v, "id").Str? && Js.Get(v, "title").Str? && Js.Get(v, "content").Str?
    && Js.Get(v, "isPinned").Bool?
    && Js.Truthy(Js.Get(v, "createdAt")) && Js.Truthy(Js.Get(v, "updatedAt"))
  }

  /** A note as the application stores it, with its two timestamps in their ISO-8601 spelling. */
  function NoteJson(n: Note, created: string, updated: string): Js.Value {
    Js.Object(map[
      "id" := Js.Str(n.id), "title" := Js.Str(n.title), "content" := Js.Str(n.content),
      "isPinned" := Js.Bool(n.isPinned), "createdAt" := Js.Str(created), "updatedAt" := Js.Str(updated)])
  }

  /**
    Only an object can pass, and it must carry all six fields; every note as
    the application stores it passes, provided its timestamps are non-empty.
  */
  lemma ValidateNoteShape(v: Js.Value, n: Note, created: string, updated: string)
    ensures ValidateNote(v) ==> v.Object? && forall k :: k in ["id", "title", "content", "isPinned", "createdAt", "updatedAt"] ==> k in v.fields
    ensures ValidateNote(NoteJson(n, created, updated)) <==> created != "" && updated != ""
  {
  }

  /** `items.every(validateNote)`. */
  function AllValid(items: seq<Js.Value>): (ok: bool)
    ensures ok <==> forall i :: 0 <= i < |items| ==> ValidateNote(items[i])
  {
    if items == [] then true
    else
      assert forall i :: 1 <= i < |items| ==> items[i] == items[1..][i - 1];
      ValidateNote(items[0]) && AllValid(items[1..])
  }

  /** The acceptance test of `importNotes`: an array whose every element is a valid note. */
  function AcceptsImport(v: Js.Value): (ok: bool)
    ensures ok <==> v.Array? && forall i :: 0 <= i < |v.items| ==> ValidateNote(v.items[i])
  {
    v.Array? && AllValid(v.items)
  }

  const ReadError := "Failed to read file"
  const ParseError := "Failed to parse notes file"
  const FormatError := "Invalid notes format"

  /** `importNotes` once the file was read (or not) and its text parsed (or not). */
  function ImportNotes(text: Option<string>, parse: string -> Option<Js.Value>): (r: Result<seq<Js.Value>>)
    ensures r.Ok? <==> text.Some? && parse(text.value).Some? && AcceptsImport(parse(text.value).value)
    ensures r.Ok? ==> r.value == parse(text.value).value.items
    ensures text.None? ==> r == Err(ReadError)
    ensures text.Some? && parse(text.value).None? ==> r == Err(ParseError)
  {
    match text
    case None => Err(ReadError)
    case Some(t) =>
      match parse(t)
      case None => Err(ParseError)
      case Some(v) => if AcceptsImport(v) then Ok(v.items) else Err(FormatError)
  }

  // ---------------------------------------------------------------------
  // getPreviewText

  const NoPreview := "No additional text"
  const Ellipsis := "..."

  /** `getPreviewText` on the text already extracted from the HTML content. */
  function PreviewText(text: string, maxLength: nat): (r: string)
  {
    if Trim(text) == [] then NoPreview
    else if |text| > maxLength then text[..maxLength] + Ellipsis
    else text
  }

  /**
    Whitespace-only text has no preview; longer text is cut to its first
    `maxLength` characters followed by an ellipsis; anything else is shown
    whole.
  */
  lemma PreviewTextCases(text: string, maxLength: nat)
    ensures AllWhitespace(text) ==> PreviewText(text, maxLength) == NoPreview
    ensures !AllWhitespace(text) && |text| > maxLength ==>
              |PreviewText(text, maxLength)| == maxLength + 3
              && PreviewText(text, maxLength)[..maxLength] == text[..maxLength]
              && PreviewText(text, maxLength)[maxLength..] == Ellipsis
    ensures !AllWhitespace(text) && |text| <= maxLength ==> PreviewText(text, maxLength) == text
  {
  }

  // ---------------------------------------------------------------------
  // formatDate

  /** What a date label says; the locale-formatted calendar date is not spelled out. */
  datatype DayLabel = Today | Yesterday | DaysAgo(days: int) | CalendarDate

  /** The label of a date `diffDays` days (rounded up) away from now, as written. */
  function FormatDateAsWritten(diffDays: nat): DayLabel {
    if diffDays == 1 then Today
    else if diffDays == 2 then Yesterday
    else if diffDays <= 7 then DaysAgo(diffDays - 1)
    else CalendarDate
  }

  /** A date at the same instant as now is labelled "-1 days ago". */
  lemma SameInstantIsMinusOneDaysAgo()
    ensures FormatDateAsWritten(0) == DaysAgo(-1)
  {
  }

  /** The label with less than a full day (including no time at all) counted as today. */
  function FormatDate(diffDays: nat): DayLabel {
    if diffDays <= 1 then Today
    else if diffDays == 2 then Yesterday
    else if diffDays <= 7 then DaysAgo(diffDays - 1)
    else CalendarDate
  }

  /**
    The buckets of the corrected label: today within one day, yesterday at
    two, "n days ago" for 2 <= n <= 6, a calendar date after a week; a count
    of days is never below two. It agrees with the label as written wherever
    that one is sensible.
  */
  lemma FormatDateBuckets(diffDays: nat)
    ensures FormatDate(diffDays) == Today <==> diffDays <= 1
    ensures FormatDate(diffDays) == Yesterday <==> diffDays == 2
    ensures FormatDate(diffDays).DaysAgo? <==> 3 <= diffDays <= 7
    ensures FormatDate(diffDays).DaysAgo? ==> 2 <= FormatDate(diffDays).days <= 6 && FormatDate(diffDays).days == diffDays - 1
    ensures FormatDate(diffDays) == CalendarDate <==> diffDays > 7
    ensures diffDays >= 1 ==> FormatDate(diffDays) == FormatDateAsWritten(diffDays)
  {
  }
}
