/**
  The note record shared by the application state, the sidebar list, the
  editor and the storage service, and the list views the sidebar and the
  pin toggle both use. Timestamps are milliseconds since the epoch; their
  ISO-8601 spelling is not modelled.
*/
module Notes {
  import opened Base

  datatype Note = Note(
    id: string,
    title: string,
    content: string,
    isPinned: bool,
    createdAt: int,
    updatedAt: int)

  /** The fields an editor passes to `onUpdateNote`: `{ content }` or `{ title, content }`. */
  datatype NoteUpdate = NoteUpdate(title: Option<string>, content: Option<string>)

  predicate IsPinned(n: Note) {
    n.isPinned
  }

  predicate IsUnpinned(n: Note) {
    !n.isPinned
  }

  /** `notes.filter(note => note.isPinned)`. */
  function Pinned(notes: seq<Note>): seq<Note> {
    Filter(notes, IsPinned)
  }

  /** `notes.filter(note => !note.isPinned)`. */
  function Unpinned(notes: seq<Note>): seq<Note> {
    Filter(notes, IsUnpinned)
  }

  /** `notes.filter(note => note.id !== id)`. */
  function WithoutId(notes: seq<Note>, id: string): seq<Note> {
    Filter(notes, OtherThan(id))
  }

  /** The filter predicate `note => note.id !== id`. */
  function OtherThan(id: string): Note -> bool {
    (n: Note) => n.id != id
  }

  /** Every pinned note comes before every unpinned note. */
  predicate PinnedFirst(notes: seq<Note>) {
    forall i, j :: 0 <= i < j < |notes| && notes[j].isPinned ==> notes[i].isPinned
  }

  predicate HasId(notes: seq<Note>, id: string) {
    exists i :: 0 <= i < |notes| && notes[i].id == id
  }

  predicate UniqueIds(notes: seq<Note>) {
    forall i, j :: 0 <= i < j < |notes| ==> notes[i].id != notes[j].id
  }

  /** `notes.find(note => note.id === id)`: the first note with that id, if any. */
  function FindById(notes: seq<Note>, id: string): (r: Option<Note>)
    ensures r.None? <==> !HasId(notes, id)
    ensures r.Some? ==> r.value.id == id
    ensures r.Some? ==>
              exists k :: 0 <= k < |notes| && notes[k] == r.value && forall j :: 0 <= j < k ==> notes[j].id != id
  {
    var k := FirstIndex(notes, (n: Note) => n.id == id);
    if k < |notes| then Some(notes[k]) else None
  }

  /** A list where pinned notes come first is exactly its pinned part followed by its unpinned part. */
  lemma {:induction false} PinnedFirstIsPartition(notes: seq<Note>)
    requires PinnedFirst(notes)
    ensures Pinned(notes) + Unpinned(notes) == notes
  {
    if notes != [] {
      var tail := notes[1..];
      if notes[0].isPinned {
        assert PinnedFirst(tail) by {
          forall i, j | 0 <= i < j < |tail| && tail[j].isPinned ensures tail[i].isPinned {
            assert tail[i] == notes[i + 1] && tail[j] == notes[j + 1];
          }
        }
        PinnedFirstIsPartition(tail);
        calc {
          Pinned(notes) + Unpinned(notes);
          ([notes[0]] + Pinned(tail)) + Unpinned(tail);
          [notes[0]] + (Pinned(tail) + Unpinned(tail));
          [notes[0]] + tail;
          notes;
        }
      } else {
        assert forall i :: 0 <= i < |notes| ==> !IsPinned(notes[i]);
        FilterDropsAll(notes, IsPinned);
        FilterKeepsAll(notes, IsUnpinned);
      }
    }
  }

  lemma UniqueIdsTail(notes: seq<Note>)
    requires UniqueIds(notes) && notes != []
    ensures UniqueIds(notes[1..])
  {
    forall i, j | 0 <= i < j < |notes[1..]| ensures notes[1..][i].id != notes[1..][j].id {
      assert notes[1..][i] == notes[i + 1] && notes[1..][j] == notes[j + 1];
    }
  }

  /** With unique ids, removing one note's id removes exactly that note. */
  lemma {:induction false} WithoutUniqueId(notes: seq<Note>, k: nat)
    requires UniqueIds(notes) && k < |notes|
    ensures WithoutId(notes, notes[k].id) == notes[..k] + notes[k + 1..]
  {
    var id := notes[k].id;
    if k == 0 {
      assert forall i :: 0 <= i < |notes[1..]| ==> notes[1..][i].id != id;
      FilterKeepsAll(notes[1..], OtherThan(id));
    } else {
      UniqueIdsTail(notes);
      var tail := notes[1..];
      assert tail[k - 1] == notes[k];
      WithoutUniqueId(tail, k - 1);
      assert notes[0].id != id;
      assert WithoutId(notes, id) == [notes[0]] + WithoutId(tail, id);
      assert notes[..k] == [notes[0]] + tail[..k - 1];
      assert notes[k + 1..] == tail[k..];
    }
  }
}
