/**
  The sidebar list: its split into pinned and unpinned notes, its own preview
  text and day labels, and the two-step delete confirmation.
*/
module NotesList {
  import opened Base
  import opened Strings
  import opened Notes
  import Helpers

  // ---------------------------------------------------------------------
  // The pinned / unpinned sections

  /**
    The two sections hold exactly the pinned and exactly the unpinned notes:
    every note of the list lands in the section its pin state names and in no
    other.
  */
  lemma SectionMembers(notes: seq<Note>)
    ensures forall i :: 0 <= i < |Pinned(notes)| ==> Pinned(notes)[i].isPinned && Pinned(notes)[i] in notes
    ensures forall i :: 0 <= i < |Unpinned(notes)| ==> !Unpinned(notes)[i].isPinned && Unpinned(notes)[i] in notes
    ensures forall i :: 0 <= i < |notes| ==>
              (notes[i] in Pinned(notes) <==> notes[i].isPinned) && (notes[i] in Unpinned(notes) <==> !notes[i].isPinned)
  {
    var p, u := Pinned(notes), Unpinned(notes);
    FilterMembers(notes, IsPinned);
    FilterMembers(notes, IsUnpinned);
    forall i | 0 <= i < |notes|
      ensures notes[i] in p <==> notes[i].isPinned
    {
      if notes[i] in p {
        var k :| 0 <= k < |p| && p[k] == notes[i];
        assert IsPinned(p[k]);
      }
    }
    forall i | 0 <= i < |notes|
      ensures notes[i] in u <==> !notes[i].isPinned
    {
      if notes[i] in u {
        var k :| 0 <= k < |u| && u[k] == notes[i];
        assert IsUnpinned(u[k]);
      }
    }
  }

  /** Each section keeps the order of the list, and together they hold every note exactly once. */
  lemma SectionsCoverOnce(notes: seq<Note>)
    ensures multiset(Pinned(notes)) + multiset(Unpinned(notes)) == multiset(notes)
    ensures |Pinned(notes)| + |Unpinned(notes)| == |notes|
    ensures IsSubsequence(Pinned(notes), notes) && IsSubsequence(Unpinned(notes), notes)
  {
    FilterSplits(notes, IsPinned, IsUnpinned);
    FilterIsSubsequence(notes, IsPinned);
    FilterIsSubsequence(notes, IsUnpinned);
  }

  // ---------------------------------------------------------------------
  // getPreviewText

  const PreviewLength := 100

  /**
    The list's `getPreviewText`: `content` is the note's HTML (missing or
    empty counts as absent) and `text` the plain text the browser extracts
    from it.
  */
  function ListPreview(content: Option<string>, text: string): string {
    if content.None? || content.value == "" then Helpers.NoPreview
    else if |text| > PreviewLength then text[..PreviewLength] + Helpers.Ellipsis
    else if text == "" then Helpers.NoPreview
    else text
  }

  /**
    Absent content or empty text has no preview; text over 100 characters is
    cut to its first 100 followed by an ellipsis; other text is shown whole,
    including text made only of whitespace. Wherever the text has something
    besides whitespace, the list and the shared helper agree.
  */
  lemma ListPreviewCases(content: Option<string>, text: string)
    ensures content.None? || content.value == "" || text == "" ==> ListPreview(content, text) == Helpers.NoPreview
    ensures content.Some? && content.value != "" && |text| > PreviewLength ==>
              |ListPreview(content, text)| == PreviewLength + 3
              && ListPreview(content, text)[..PreviewLength] == text[..PreviewLength]
              && ListPreview(content, text)[PreviewLength..] == Helpers.Ellipsis
    ensures content.Some? && content.value != "" && text != "" && |text| <= PreviewLength ==> ListPreview(content, text) == text
    ensures content.Some? && content.value != "" && !AllWhitespace(text) ==>
              ListPreview(content, text) == Helpers.PreviewText(text, PreviewLength)
  {
    if content.Some? && content.value != "" && !AllWhitespace(text) {
      Helpers.PreviewTextCases(text, PreviewLength);
    }
  }

  /** Whitespace-only text: the list shows it as it is, the shared helper says there is no preview. */
  lemma WhitespacePreviewsDiffer()
    ensures ListPreview(Some("<p> </p>"), " ") == " "
    ensures Helpers.PreviewText(" ", PreviewLength) == Helpers.NoPreview
  {
    assert AllWhitespace(" ");
    Helpers.PreviewTextCases(" ", PreviewLength);
  }

  // ---------------------------------------------------------------------
  // formatDate

  /**
    The list's label for a date `diffDays` calendar days before today
    (negative for a future date): future dates and dates more than a week
    back show the calendar date.
  */
  function ListDate(diffDays: int): Helpers.DayLabel {
    if diffDays == 0 then Helpers.Today
    else if diffDays == 1 then Helpers.Yesterday
    else if diffDays > 1 && diffDays <= 7 then Helpers.DaysAgo(diffDays)
    else if diffDays > 7 then Helpers.CalendarDate
    else Helpers.CalendarDate
  }

  /** Each day difference gets exactly one bucket, and "n days ago" always names 2 to 7 days. */
  lemma ListDateBuckets(diffDays: int)
    ensures ListDate(diffDays) == Helpers.Today <==> diffDays == 0
    ensures ListDate(diffDays) == Helpers.Yesterday <==> diffDays == 1
    ensures ListDate(diffDays).DaysAgo? <==> 2 <= diffDays <= 7
    ensures ListDate(diffDays).DaysAgo? ==> ListDate(diffDays).days == diffDays
    ensures ListDate(diffDays) == Helpers.CalendarDate <==> diffDays < 0 || diffDays > 7
  {
  }

  // ---------------------------------------------------------------------
  // The delete confirmation

  /**
    The list's local state: the note whose delete confirmation is showing,
    and the calls the list has made to its `onDeleteNote` and `onTogglePin`
    callbacks, oldest first.
  */
  class NoteListState {
    var showDeleteConfirm: Option<string>
    var deleteRequests: seq<string>
    var pinRequests: seq<string>

    constructor()
      ensures showDeleteConfirm == None && deleteRequests == [] && pinRequests == []
    {
      showDeleteConfirm := None;
      deleteRequests := [];
      pinRequests := [];
    }

    /** The confirm and cancel buttons show on the note whose id is pending, and only there. */
    predicate ConfirmShownFor(noteId: string)
      reads this
    {
      showDeleteConfirm == Some(noteId)
    }

    /** `handleDeleteClick`: records the pending note and deletes nothing. */
    method HandleDeleteClick(noteId: string)
      modifies this`showDeleteConfirm
      ensures showDeleteConfirm == Some(noteId)
      ensures Step(old(showDeleteConfirm), old(deleteRequests), DeleteClick(noteId)) == Some((showDeleteConfirm, deleteRequests))
    {
      showDeleteConfirm := Some(noteId);
    }

    /**
      `confirmDelete`, reachable only from the confirm button of the pending
      note: asks for that note to be deleted, then hides the confirmation.
    */
    method ConfirmDelete(noteId: string)
      requires ConfirmShownFor(noteId)
      modifies this`showDeleteConfirm, this`deleteRequests
      ensures deleteRequests == old(deleteRequests) + [noteId]
      ensures showDeleteConfirm == None
      ensures Step(old(showDeleteConfirm), old(deleteRequests), Confirm(noteId)) == Some((showDeleteConfirm, deleteRequests))
    {
      deleteRequests := deleteRequests + [noteId];
      showDeleteConfirm := None;
    }

    /** `cancelDelete`: hides the confirmation and deletes nothing. */
    method CancelDelete()
      modifies this`showDeleteConfirm
      ensures showDeleteConfirm == None
      ensures Step(old(showDeleteConfirm), old(deleteRequests), Cancel) == Some((showDeleteConfirm, deleteRequests))
    {
      showDeleteConfirm := None;
    }

    /** `handlePinClick`: asks for the note's pin to be toggled. */
    method HandlePinClick(noteId: string)
      modifies this`pinRequests
      ensures pinRequests == old(pinRequests) + [noteId]
      ensures Step(old(showDeleteConfirm), old(deleteRequests), PinClick(noteId)) == Some((showDeleteConfirm, deleteRequests))
    {
      pinRequests := pinRequests + [noteId];
    }
  }

  /** A user action on the list. */
  datatype ListAction = DeleteClick(id: string) | Confirm(id: string) | Cancel | PinClick(id: string)

  /**
    The pending confirmation and the delete requests after one action, when
    the action is possible at all: what the `NoteListState` method for that
    action leaves, as each method's last `ensures` states.
  */
  function Step(pending: Option<string>, requests: seq<string>, a: ListAction): Option<(Option<string>, seq<string>)> {
    match a
    case DeleteClick(id) => Some((Some(id), requests))
    case Confirm(id) => if pending == Some(id) then Some((None, requests + [id])) else None
    case Cancel => Some((None, requests))
    case PinClick(_) => Some((pending, requests))
  }

  /** The state after a run of actions from a fresh list, or `None` when some confirm button was not showing. */
  function Run(actions: seq<ListAction>): Option<(Option<string>, seq<string>)> {
    if actions == [] then Some((None, []))
    else
      match Run(actions[..|actions| - 1])
      case None => None
      case Some(s) => Step(s.0, s.1, actions[|actions| - 1])
  }

  /**
    Nothing is deleted without being confirmed: every delete request of a run
    is a `Confirm` action of that run, made at a point where the confirmation
    showing was the one for that very note.
  */
  lemma {:induction false} DeletesAreConfirmed(actions: seq<ListAction>)
    requires Run(actions).Some?
    ensures forall r :: 0 <= r < |Run(actions).value.1| ==>
              exists k :: 0 <= k < |actions| && actions[k] == Confirm(Run(actions).value.1[r]) &&
                Run(actions[..k]).Some? && Run(actions[..k]).value.0 == Some(Run(actions).value.1[r])
    ensures |Run(actions).value.1| <= |actions|
  {
    if actions != [] {
      var init := actions[..|actions| - 1];
      DeletesAreConfirmed(init);
      var s := Run(init).value;
      var requests := Run(actions).value.1;
      forall r | 0 <= r < |requests|
        ensures exists k :: 0 <= k < |actions| && actions[k] == Confirm(requests[r]) &&
                  Run(actions[..k]).Some? && Run(actions[..k]).value.0 == Some(requests[r])
      {
        if r < |s.1| {
          var k :| 0 <= k < |init| && init[k] == Confirm(s.1[r]) &&
                   Run(init[..k]).Some? && Run(init[..k]).value.0 == Some(s.1[r]);
          assert actions[k] == init[k];
          assert actions[..k] == init[..k];
        } else {
          assert actions[..|actions| - 1] == init;
          assert actions[|actions| - 1] == Confirm(requests[r]);
        }
      }
    }
  }

  /** Clicking delete and then cancelling deletes nothing; clicking delete and then confirming deletes that note. */
  lemma ConfirmOrCancel(id: string)
    ensures Run([DeleteClick(id), Cancel]) == Some((None, []))
    ensures Run([DeleteClick(id), Confirm(id)]) == Some((None, [id]))
    ensures forall other :: other != id ==> Run([DeleteClick(id), Confirm(other)]) == None
  {
    assert [DeleteClick(id)][..0] == [];
    assert Run([DeleteClick(id)]) == Some((Some(id), []));
    assert [] + [id] == [id];
    assert [DeleteClick(id), Cancel][..1] == [DeleteClick(id)];
    assert [DeleteClick(id), Confirm(id)][..1] == [DeleteClick(id)];
    forall other | other != id ensures Run([DeleteClick(id), Confirm(other)]) == None {
      assert [DeleteClick(id), Confirm(other)][..1] == [DeleteClick(id)];
      assert Run([DeleteClick(id)]) == Some((Some(id), []));
    }
  }
}
