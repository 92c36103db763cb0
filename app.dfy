/**
  The application shell: the note list, the note being edited and the
  "just created" flag, with the handlers that create, update, delete, pin
  and select notes, and the two effects that read and write the list in
  browser storage under the key 'notes'.
*/
module App {
  import opened Base
  import opened Notes

  const UntitledTitle := "Untitled Note"

  /** The note `createNewNote` builds from a fresh id and the clock. */
  function NewNote(id: string, createdAt: int, updatedAt: int): Note {
    Note(id, UntitledTitle, "", false, createdAt, updatedAt)
  }

  /** `{ ...note, ...updates, updatedAt: now }`. */
  function ApplyUpdate(n: Note, u: NoteUpdate, now: int): Note {
    n.(title := u.title.GetOr(n.title), content := u.content.GetOr(n.content), updatedAt := now)
  }

  /** `after` is `before` with every field of `u` written and `updatedAt` set to `now`; id, pin state and creation time are kept. */
  predicate Carries(after: Note, before: Note, u: NoteUpdate, now: int) {
    && after.id == before.id && after.isPinned == before.isPinned && after.createdAt == before.createdAt
    && after.title == (if u.title.Some? then u.title.value else before.title)
    && after.content == (if u.content.Some? then u.content.value else before.content)
    && after.updatedAt == now
  }

  /** `notes.map(note => note.id === id ? { ...note, ...updates, updatedAt } : note)`. */
  function UpdateById(notes: seq<Note>, id: string, u: NoteUpdate, now: int): (r: seq<Note>)
    ensures |r| == |notes|
  {
    if notes == [] then []
    else [if notes[0].id == id then ApplyUpdate(notes[0], u, now) else notes[0]] + UpdateById(notes[1..], id, u, now)
  }

  /** After `deleteNote(id)` removed the current note, the editor shows the first remaining note, or nothing. */
  function CurrentAfterDelete(current: Option<Note>, notes: seq<Note>, id: string): Option<Note> {
    if current.Some? && current.value.id == id then
      var remaining := WithoutId(notes, id);
      if |remaining| > 0 then Some(remaining[0]) else None
    else current
  }

  function Flip(n: Note): Note {
    n.(isPinned := !n.isPinned)
  }

  /**
    The list `togglePinNote(id)` installs: the note found by id with its pin
    flipped goes to the front when it became pinned, or first among the
    unpinned notes when it became unpinned; every note with that id is taken
    out of its old place.
  */
  function TogglePin(notes: seq<Note>, id: string): seq<Note> {
    match FindById(notes, id)
    case None => notes
    case Some(n) =>
      var u := Flip(n);
      var others := WithoutId(notes, id);
      if u.isPinned then [u] + Pinned(others) + Unpinned(others)
      else Pinned(others) + [u] + Unpinned(others)
  }

  /** The list the mount effect installs from what browser storage holds under 'notes'. */
  function RestoredNotes(stored: Option<seq<Note>>): seq<Note> {
    stored.GetOr([])
  }

  /** The save effect as written: it writes the list only when it is not empty. */
  function PersistAsWritten(stored: Option<seq<Note>>, notes: seq<Note>): Option<seq<Note>> {
    if |notes| > 0 then Some(notes) else stored
  }

  /** The save effect as evidently intended: it writes the list whatever its length. */
  function Persist(stored: Option<seq<Note>>, notes: seq<Note>): (r: Option<seq<Note>>)
    ensures RestoredNotes(r) == notes
  {
    Some(notes)
  }

  /** `updateNote` keeps the length, leaves notes with other ids alone and writes `u` into the matching ones. */
  lemma {:induction false} UpdateKeepsOthers(notes: seq<Note>, id: string, u: NoteUpdate, now: int, i: nat)
    requires i < |notes|
    ensures |UpdateById(notes, id, u, now)| == |notes|
    ensures notes[i].id != id ==> UpdateById(notes, id, u, now)[i] == notes[i]
    ensures notes[i].id == id ==> Carries(UpdateById(notes, id, u, now)[i], notes[i], u, now)
  {
    if i > 0 {
      UpdateKeepsOthers(notes[1..], id, u, now, i - 1);
    }
  }

  /**
    `deleteNote(id)` leaves no note with that id, keeps every other note in
    its relative order, and changes nothing when the id is absent.
  */
  lemma DeleteRemovesOnlyId(notes: seq<Note>, id: string)
    ensures !HasId(WithoutId(notes, id), id)
    ensures IsSubsequence(WithoutId(notes, id), notes)
    ensures forall i :: 0 <= i < |notes| && notes[i].id != id ==> notes[i] in WithoutId(notes, id)
    ensures !HasId(notes, id) ==> WithoutId(notes, id) == notes
  {
    FilterIsSubsequence(notes, OtherThan(id));
    FilterMembers(notes, OtherThan(id));
    if !HasId(notes, id) {
      FilterKeepsAll(notes, OtherThan(id));
    }
  }

  /** Deleting the current note moves the selection to the first remaining note, or clears it. */
  lemma DeleteMovesSelection(current: Option<Note>, notes: seq<Note>, id: string)
    requires current.Some? && current.value.id == id
    ensures var c := CurrentAfterDelete(current, notes, id);
            (c.Some? ==> c.value.id != id && c.value in notes && c.value == WithoutId(notes, id)[0])
            && (c.None? <==> forall i :: 0 <= i < |notes| ==> notes[i].id == id)
  {
    var remaining := WithoutId(notes, id);
    FilterMembers(notes, OtherThan(id));
    if forall i :: 0 <= i < |notes| ==> notes[i].id == id {
      FilterDropsAll(notes, OtherThan(id));
    } else {
      var i :| 0 <= i < |notes| && notes[i].id != id;
      assert notes[i] in remaining;
    }
  }

  /** `togglePinNote` with an id no note has changes nothing. */
  lemma TogglePinUnknownId(notes: seq<Note>, id: string)
    requires !HasId(notes, id)
    ensures TogglePin(notes, id) == notes
  {
  }

  /** A list whose first part is all pinned and whose second part is all unpinned has its pinned notes first. */
  lemma PinnedThenUnpinned(a: seq<Note>, b: seq<Note>)
    requires forall i :: 0 <= i < |a| ==> a[i].isPinned
    requires forall i :: 0 <= i < |b| ==> !b[i].isPinned
    ensures PinnedFirst(a + b)
  {
  }

  /** After `togglePinNote`, every pinned note precedes every unpinned note, whatever the order before. */
  lemma TogglePinOrdersGroups(notes: seq<Note>, id: string)
    requires HasId(notes, id)
    ensures PinnedFirst(TogglePin(notes, id))
  {
    var n := FindById(notes, id).value;
    var u := Flip(n);
    var others := WithoutId(notes, id);
    if u.isPinned {
      PinnedThenUnpinned([u] + Pinned(others), Unpinned(others));
      assert [u] + Pinned(others) + Unpinned(others) == ([u] + Pinned(others)) + Unpinned(others);
    } else {
      PinnedThenUnpinned(Pinned(others), [u] + Unpinned(others));
      assert Pinned(others) + [u] + Unpinned(others) == Pinned(others) + ([u] + Unpinned(others));
    }
  }

  /**
    Where the toggled note lands: at the front when it became pinned, and
    right after the pinned notes (first among the unpinned) when it became
    unpinned.
  */
  lemma TogglePinPlacement(notes: seq<Note>, id: string)
    requires HasId(notes, id)
    ensures var u := Flip(FindById(notes, id).value);
            var r := TogglePin(notes, id);
            var k := |Pinned(WithoutId(notes, id))|;
            (u.isPinned ==> r[0] == u)
            && (!u.isPinned ==> k < |r| && r[k] == u && forall j :: 0 <= j < k ==> r[j].isPinned)
  {
  }

  /** With unique ids, `FindById` finds the one note that carries the id. */
  lemma FindUnique(notes: seq<Note>, k: nat)
    requires UniqueIds(notes) && k < |notes|
    ensures FindById(notes, notes[k].id) == Some(notes[k])
  {
    var r := FindById(notes, notes[k].id);
    assert HasId(notes, notes[k].id);
    var i :| 0 <= i < |notes| && notes[i] == r.value;
    assert i == k;
  }

  /** The list `togglePinNote` builds from the flipped note and the others, as a multiset. */
  lemma RegroupedMultiset(u: Note, others: seq<Note>)
    ensures var r := if u.isPinned then [u] + Pinned(others) + Unpinned(others)
                     else Pinned(others) + [u] + Unpinned(others);
            multiset(r) == multiset([u]) + multiset(others) && |r| == |others| + 1
  {
    FilterSplits(others, IsPinned, IsUnpinned);
  }

  /** Replacing the element at `k` is cutting it out and putting the new one in its place. */
  lemma ReplaceAt(notes: seq<Note>, k: nat, u: Note)
    requires k < |notes|
    ensures multiset(notes[k := u]) == multiset(notes[..k] + notes[k + 1..]) + multiset([u])
  {
    assert notes[k := u] == notes[..k] + [u] + notes[k + 1..];
  }

  /**
    With unique ids, the list after `togglePinNote` holds the same notes as
    before, except that the target's pin state is flipped.
  */
  lemma TogglePinIsPermutation(notes: seq<Note>, k: nat)
    requires UniqueIds(notes) && k < |notes|
    ensures multiset(TogglePin(notes, notes[k].id)) == multiset(notes[k := Flip(notes[k])])
    ensures |TogglePin(notes, notes[k].id)| == |notes|
  {
    var id := notes[k].id;
    FindUnique(notes, k);
    var u := Flip(notes[k]);
    WithoutUniqueId(notes, k);
    RegroupedMultiset(u, WithoutId(notes, id));
    ReplaceAt(notes, k, u);
  }

  /** Whatever holds of every element still holds of every element after filtering. */
  lemma {:induction false} FilterKeepsProperty(s: seq<Note>, p: Note -> bool, q: Note -> bool)
    requires forall i :: 0 <= i < |s| ==> q(s[i])
    ensures forall i :: 0 <= i < |Filter(s, p)| ==> q(Filter(s, p)[i])
  {
    if s != [] {
      FilterKeepsProperty(s[1..], p, q);
    }
  }

  /** Filtering `id` out of `[u] + a`, when only `u` carries `id`, leaves `a`. */
  lemma WithoutIdDropsHead(u: Note, a: seq<Note>, id: string)
    requires u.id == id
    requires forall i :: 0 <= i < |a| ==> a[i].id != id
    ensures WithoutId([u] + a, id) == a
  {
    assert ([u] + a)[1..] == a;
    FilterKeepsAll(a, OtherThan(id));
  }

  /** Filtering `id` out of `a + [u] + b`, when only `u` carries `id`, leaves `a + b`. */
  lemma {:induction false} WithoutIdDropsInner(u: Note, a: seq<Note>, b: seq<Note>, id: string)
    requires u.id == id
    requires forall i :: 0 <= i < |a| ==> a[i].id != id
    requires forall i :: 0 <= i < |b| ==> b[i].id != id
    ensures WithoutId(a + [u] + b, id) == a + b
  {
    if a == [] {
      assert a + [u] + b == [u] + b;
      WithoutIdDropsHead(u, b, id);
    } else {
      assert (a + [u] + b)[1..] == a[1..] + [u] + b;
      WithoutIdDropsInner(u, a[1..], b, id);
      assert a + b == [a[0]] + (a[1..] + b);
    }
  }

  /** Taking `id` out of the toggled list leaves the other pinned notes followed by the other unpinned ones. */
  lemma ToggledWithoutId(notes: seq<Note>, id: string)
    requires HasId(notes, id)
    ensures WithoutId(TogglePin(notes, id), id) == Pinned(WithoutId(notes, id)) + Unpinned(WithoutId(notes, id))
  {
    var u := Flip(FindById(notes, id).value);
    var others := WithoutId(notes, id);
    var p, q := Pinned(others), Unpinned(others);
    var notId := (n: Note) => n.id != id;
    assert forall i :: 0 <= i < |others| ==> notId(others[i]);
    FilterKeepsProperty(others, IsPinned, notId);
    FilterKeepsProperty(others, IsUnpinned, notId);
    if u.isPinned {
      assert [u] + p + q == [u] + (p + q);
      WithoutIdDropsHead(u, p + q, id);
    } else {
      WithoutIdDropsInner(u, p, q, id);
    }
  }

  /** Splitting the pinned notes followed by the unpinned ones gives back the two groups. */
  lemma GroupsOfGroups(others: seq<Note>)
    ensures Pinned(Pinned(others) + Unpinned(others)) == Pinned(others)
    ensures Unpinned(Pinned(others) + Unpinned(others)) == Unpinned(others)
  {
    var p, q := Pinned(others), Unpinned(others);
    FilterConcat(p, q, IsPinned);
    FilterConcat(p, q, IsUnpinned);
    FilterKeepsAll(p, IsPinned);
    FilterDropsAll(q, IsPinned);
    FilterDropsAll(p, IsUnpinned);
    FilterKeepsAll(q, IsUnpinned);
  }

  /**
    `togglePinNote` keeps the relative order of the untouched notes within
    each pin group: the other pinned notes, and the other unpinned notes,
    appear in the same order as before.
  */
  lemma TogglePinKeepsGroupOrder(notes: seq<Note>, id: string)
    requires HasId(notes, id)
    ensures Pinned(WithoutId(TogglePin(notes, id), id)) == Pinned(WithoutId(notes, id))
    ensures Unpinned(WithoutId(TogglePin(notes, id), id)) == Unpinned(WithoutId(notes, id))
  {
    ToggledWithoutId(notes, id);
    GroupsOfGroups(WithoutId(notes, id));
  }

  /** The save effect as written does not persist the deletion of the last note: it comes back on reload. */
  lemma DeletingLastNoteIsNotPersisted(n: Note)
    ensures WithoutId([n], n.id) == []
    ensures RestoredNotes(PersistAsWritten(Some([n]), WithoutId([n], n.id))) == [n]
  {
    FilterDropsAll([n], OtherThan(n.id));
  }

  class AppState {
    var notes: seq<Note>
    var currentNote: Option<Note>
    var isCreatingNew: bool
    /** What browser storage holds under 'notes', as the list it parses to. */
    var stored: Option<seq<Note>>

    /** Mounting: the load effect installs the stored list and selects its first note. */
    constructor (stored: Option<seq<Note>>)
      ensures this.stored == stored && notes == RestoredNotes(stored)
      ensures currentNote == (if notes != [] then Some(notes[0]) else None)
      ensures !isCreatingNew
    {
      this.stored := stored;
      notes := [];
      currentNote := None;
      isCreatingNew := false;
      if stored.Some? {
        var parsed := stored.value;
        notes := parsed;
        if |parsed| > 0 {
          currentNote := Some(parsed[0]);
        }
      }
    }

    /** The save effect that runs after the list changes. */
    method PersistNotes()
      modifies this`stored
      ensures stored == Persist(old(stored), notes)
    {
      stored := Some(notes);
    }

    method CreateNewNote(id: string, createdAt: int, updatedAt: int)
      modifies this`notes, this`currentNote, this`isCreatingNew
      ensures notes == [NewNote(id, createdAt, updatedAt)] + old(notes)
      ensures currentNote == Some(NewNote(id, createdAt, updatedAt)) && isCreatingNew
    {
      var newNote := NewNote(id, createdAt, updatedAt);
      notes := [newNote] + notes;
      currentNote := Some(newNote);
      isCreatingNew := true;
    }

    method UpdateNote(id: string, u: NoteUpdate, now: int)
      modifies this`notes, this`currentNote
      ensures notes == UpdateById(old(notes), id, u, now)
      ensures old(currentNote).Some? && old(currentNote).value.id == id ==>
                currentNote.Some? && Carries(currentNote.value, old(currentNote).value, u, now)
      ensures !(old(currentNote).Some? && old(currentNote).value.id == id) ==> currentNote == old(currentNote)
    {
      notes := UpdateById(notes, id, u, now);
      if currentNote.Some? && currentNote.value.id == id {
        currentNote := Some(ApplyUpdate(currentNote.value, u, now));
      }
    }

    method DeleteNote(id: string)
      modifies this`notes, this`currentNote
      ensures notes == WithoutId(old(notes), id)
      ensures currentNote == CurrentAfterDelete(old(currentNote), old(notes), id)
    {
      var before := notes;
      notes := WithoutId(notes, id);
      if currentNote.Some? && currentNote.value.id == id {
        var remaining := WithoutId(before, id);
        currentNote := if |remaining| > 0 then Some(remaining[0]) else None;
      }
    }

    method TogglePinNote(id: string)
      modifies this`notes, this`currentNote
      ensures notes == TogglePin(old(notes), id)
      ensures var found := FindById(old(notes), id);
              currentNote == if found.Some? && old(currentNote).Some? && old(currentNote).value.id == id
                             then Some(Flip(found.value)) else old(currentNote)
    {
      var noteToPin := FindById(notes, id);
      if noteToPin.None? {
        return;
      }
      var updated := Flip(noteToPin.value);
      var others := WithoutId(notes, id);
      if updated.isPinned {
        notes := [updated] + Pinned(others) + Unpinned(others);
      } else {
        notes := Pinned(others) + [updated] + Unpinned(others);
      }
      if currentNote.Some? && currentNote.value.id == id {
        currentNote := Some(updated);
      }
    }

    method SelectNote(note: Note)
      modifies this`currentNote, this`isCreatingNew
      ensures currentNote == Some(note) && !isCreatingNew
    {
      currentNote := Some(note);
      isCreatingNew := false;
    }
  }
}
