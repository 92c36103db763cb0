/**
  The note editor: its word, character and reading-time counters, the
  unsaved-changes flag that decides when an edit is sent to the application,
  and the keyboard shortcuts. The editor's HTML is a string; what
  `document.execCommand` makes of it is a parameter, as is the plain text the
  browser extracts from it.
*/
module Editor {
  import opened Base
  import opened Strings
  import opened Notes

  // ---------------------------------------------------------------------
  // getWordCount, getCharacterCount, getReadingTime

  predicate IsWordChar(c: char) {
    !IsWhitespace(c)
  }

  /** The end of the first piece: the first whitespace position, or the length. */
  function PieceEnd(s: string): (k: nat)
    ensures k <= |s|
    ensures forall i :: 0 <= i < k ==> IsWordChar(s[i])
    ensures k < |s| ==> IsWhitespace(s[k])
  {
    FirstIndex(s, IsWhitespace)
  }

  /** The end of the whitespace run starting at `k`: the next non-whitespace position, or the length. */
  function GapEnd(s: string, k: nat): (j: nat)
    requires k < |s| && IsWhitespace(s[k])
    ensures k < j <= |s|
    ensures forall i :: k <= i < j ==> IsWhitespace(s[i])
    ensures j < |s| ==> IsWordChar(s[j])
  {
    var m := FirstIndex(s[k..], IsWordChar);
    assert forall i :: 0 <= i < m ==> s[k..][i] == s[k + i];
    k + m
  }

  /** `s.split(/\s+/)`: the pieces between maximal runs of whitespace (empty pieces at the ends included). */
  function SplitOnWhitespace(s: string): seq<string>
    decreases |s|
  {
    var k := PieceEnd(s);
    if k == |s| then [s] else [s[..k]] + SplitOnWhitespace(s[GapEnd(s, k)..])
  }

  predicate NonEmpty(w: string) {
    |w| > 0
  }

  /** `getWordCount`: the non-empty pieces of the trimmed text; no editor counts no words. */
  function WordCount(text: Option<string>): nat {
    if text.None? then 0 else |Filter(SplitOnWhitespace(Trim(text.value)), NonEmpty)|
  }

  /** `getCharacterCount`: the length of the text in UTF-16 code units; no editor counts no characters. */
  function CharacterCount(text: Option<string>): nat {
    if text.None? then 0 else JsLength(text.value)
  }

  const WordsPerMinute := 200

  /** `getReadingTime`: `Math.ceil(words / 200)` minutes. */
  function ReadingTime(words: nat): (minutes: nat)
    ensures minutes * WordsPerMinute >= words
    ensures minutes > 0 ==> (minutes - 1) * WordsPerMinute < words
    ensures minutes == 0 <==> words == 0
  {
    (words + WordsPerMinute - 1) / WordsPerMinute
  }

  /**
    The number of characters that begin a word: a non-whitespace character at
    the start (when `afterSpace` holds) or right after whitespace.
  */
  function WordStarts(s: string, afterSpace: bool): (n: nat)
    ensures n <= |s|
  {
    if s == [] then 0
    else (if afterSpace && IsWordChar(s[0]) then 1 else 0) + WordStarts(s[1..], IsWhitespace(s[0]))
  }

  /** Whether the position after `s` follows whitespace, `afterSpace` standing for what precedes `s`. */
  function EndsAfterSpace(s: string, afterSpace: bool): bool {
    if s == [] then afterSpace else IsWhitespace(s[|s| - 1])
  }

  lemma {:induction false} WordStartsConcat(a: string, b: string, afterSpace: bool)
    ensures WordStarts(a + b, afterSpace) == WordStarts(a, afterSpace) + WordStarts(b, EndsAfterSpace(a, afterSpace))
  {
    if a == [] {
      assert a + b == b;
    } else {
      assert (a + b)[0] == a[0] && (a + b)[1..] == a[1..] + b;
      WordStartsConcat(a[1..], b, IsWhitespace(a[0]));
      if |a| > 1 {
        assert a[1..][|a[1..]| - 1] == a[|a| - 1];
      }
    }
  }

  lemma {:induction false} WhitespaceHasNoStarts(s: string, afterSpace: bool)
    requires AllWhitespace(s)
    ensures WordStarts(s, afterSpace) == 0
  {
    if s != [] {
      WhitespaceHasNoStarts(s[1..], IsWhitespace(s[0]));
    }
  }

  /** A piece without whitespace starts one word when it is non-empty and follows whitespace, none otherwise. */
  lemma {:induction false} PieceStarts(s: string, afterSpace: bool)
    requires forall i :: 0 <= i < |s| ==> IsWordChar(s[i])
    ensures WordStarts(s, afterSpace) == if s != [] && afterSpace then 1 else 0
  {
    if s != [] {
      PieceStarts(s[1..], false);
    }
  }

  /** A piece, then a run of whitespace: the word starts are the piece's one word, if any, and those after the run. */
  lemma StartsAroundGap(s: string, k: nat, j: nat)
    requires k < j <= |s|
    requires forall i :: 0 <= i < k ==> IsWordChar(s[i])
    requires forall i :: k <= i < j ==> IsWhitespace(s[i])
    ensures WordStarts(s, true) == (if k > 0 then 1 else 0) + WordStarts(s[j..], true)
  {
    var piece, gap, rest := s[..k], s[k..j], s[j..];
    assert s == piece + (gap + rest);
    WordStartsConcat(piece, gap + rest, true);
    PieceStarts(piece, true);
    WordStartsConcat(gap, rest, EndsAfterSpace(piece, true));
    assert AllWhitespace(gap) by {
      forall i | 0 <= i < |gap| ensures IsWhitespace(gap[i]) {
        assert gap[i] == s[k + i];
      }
    }
    WhitespaceHasNoStarts(gap, EndsAfterSpace(piece, true));
    assert gap[|gap| - 1] == s[j - 1];
  }

  /** Counting the non-empty pieces of `split` is counting the word starts. */
  lemma {:induction false} SplitCountsWordStarts(s: string)
    ensures |Filter(SplitOnWhitespace(s), NonEmpty)| == WordStarts(s, true)
    decreases |s|
  {
    var k := PieceEnd(s);
    if k == |s| {
      PieceStarts(s, true);
    } else {
      var j := GapEnd(s, k);
      SplitCountsWordStarts(s[j..]);
      FilterConcat([s[..k]], SplitOnWhitespace(s[j..]), NonEmpty);
      assert Filter([s[..k]], NonEmpty) == if k > 0 then [s[..k]] else [];
      StartsAroundGap(s, k, j);
    }
  }

  /** Leading whitespace begins no word. */
  lemma TrimStartKeepsStarts(s: string)
    ensures WordStarts(TrimStart(s), true) == WordStarts(s, true)
  {
    var r := TrimStart(s);
    var lead := s[..|s| - |r|];
    assert s == lead + r;
    WordStartsConcat(lead, r, true);
    WhitespaceHasNoStarts(lead, true);
  }

  /** Trailing whitespace begins no word. */
  lemma TrimEndKeepsStarts(s: string)
    ensures WordStarts(TrimEnd(s), true) == WordStarts(s, true)
  {
    var r := TrimEnd(s);
    var trail := s[|r|..];
    assert s == r + trail;
    WordStartsConcat(r, trail, true);
    WhitespaceHasNoStarts(trail, EndsAfterSpace(r, true));
  }

  /** Text begins no word exactly when it is whitespace only. */
  lemma {:induction false} NoStartsMeansWhitespace(s: string)
    ensures WordStarts(s, true) == 0 <==> AllWhitespace(s)
  {
    if s != [] {
      NoStartsMeansWhitespace(s[1..]);
      if IsWhitespace(s[0]) {
        assert AllWhitespace(s) <==> AllWhitespace(s[1..]) by {
          assert forall i :: 1 <= i < |s| ==> s[i] == s[1..][i - 1];
        }
      }
    }
  }

  /**
    The word count is the number of characters that begin a word, so it is
    zero exactly when the text is empty or whitespace only, and never exceeds
    the character count.
  */
  lemma WordCountMeaning(text: string)
    ensures WordCount(Some(text)) == WordStarts(text, true)
    ensures WordCount(Some(text)) == 0 <==> AllWhitespace(text)
    ensures WordCount(Some(text)) <= CharacterCount(Some(text))
  {
    var t := TrimStart(text);
    assert Trim(text) == TrimEnd(t);
    SplitCountsWordStarts(TrimEnd(t));
    TrimEndKeepsStarts(t);
    TrimStartKeepsStarts(text);
    NoStartsMeansWhitespace(text);
    JsLengthBounds(text);
  }

  /** Empty or whitespace-only text reads in no time; any word takes at least a minute. */
  lemma ReadingTimeOfText(text: Option<string>)
    ensures ReadingTime(WordCount(text)) == 0 <==> text.None? || AllWhitespace(text.value)
  {
    if text.Some? {
      WordCountMeaning(text.value);
    }
  }

  // ---------------------------------------------------------------------
  // Keyboard shortcuts

  datatype Shortcut = Bold | Italic | Underline | Save

  /** `handleKeyDown`'s dispatch: Ctrl or Meta with b, i, u or s. */
  function ShortcutFor(ctrl: bool, meta: bool, key: string): Option<Shortcut> {
    if ctrl || meta then
      if key == "b" then Some(Bold)
      else if key == "i" then Some(Italic)
      else if key == "u" then Some(Underline)
      else if key == "s" then Some(Save)
      else None
    else None
  }

  /** A shortcut fires only with a modifier and one of the four keys, and each key names its own shortcut. */
  lemma ShortcutCases(ctrl: bool, meta: bool, key: string)
    ensures ShortcutFor(ctrl, meta, key).Some? <==> (ctrl || meta) && key in {"b", "i", "u", "s"}
    ensures ShortcutFor(ctrl, meta, key) == Some(Save) <==> (ctrl || meta) && key == "s"
    ensures forall other :: ShortcutFor(ctrl, meta, key).Some? && ShortcutFor(ctrl, meta, key) == ShortcutFor(ctrl, meta, other) ==> key == other
  {
  }

  // ---------------------------------------------------------------------
  // The editor state

  /** A call the editor makes to `onUpdateNote`. */
  datatype Sent = Sent(id: string, update: NoteUpdate)

  // ---------------------------------------------------------------------
  // The save-on-unmount effect

  /**
    What makes React run the cleanup of the save-on-unmount effect, whose
    dependencies are the note id, the title and `onUpdateNote`: a typed
    title (which was `previous` in the render the cleanup belongs to), a
    render of the parent (whose `onUpdateNote` is a new function each time),
    a switch to another note, or unmounting.
  */
  datatype Trigger = TitleTyped(previous: string) | ParentRender | NoteSwitched | Unmounted

  /**
    The cleanup as written: it runs on every trigger and, with unsaved
    changes and an editor, sends the title of the render it belongs to with
    the current content. It leaves the flag set.
  */
  function CleanupAsWritten(t: Trigger, noteId: string, title: string, dirty: bool, html: Option<string>): seq<Sent> {
    if dirty && html.Some? then [Sent(noteId, NoteUpdate(Some(if t.TitleTyped? then t.previous else title), Some(html.value)))]
    else []
  }

  /**
    The cleanup as evidently intended: it saves the latest title and content
    when the editor leaves the note (a switch or unmounting), and nothing else
    makes it send.
  */
  function CleanupCorrected(t: Trigger, noteId: string, title: string, dirty: bool, html: Option<string>): seq<Sent> {
    if (t.NoteSwitched? || t.Unmounted?) && dirty && html.Some? then [Sent(noteId, NoteUpdate(Some(title), Some(html.value)))]
    else []
  }

  /**
    The sends over `n` renders of the parent after an edit left `title` and
    `html` unsaved: each send updates the parent's notes, which renders the
    parent again and runs the cleanup again.
  */
  function Echo(asWritten: bool, noteId: string, title: string, html: string, n: nat): seq<Sent> {
    if n == 0 then []
    else
      var s := if asWritten then CleanupAsWritten(ParentRender, noteId, title, true, Some(html))
               else CleanupCorrected(ParentRender, noteId, title, true, Some(html));
      if s == [] then [] else s + Echo(asWritten, noteId, title, html, n - 1)
  }

  /**
    As written, unsaved changes are sent again on every render of the parent,
    and each send causes the next render: `n` renders send the same update
    `n` times, without end until a save clears the flag. Typing a title sends
    the title it replaced.
  */
  lemma {:induction false} SaveLoopAsWritten(noteId: string, title: string, html: string, n: nat)
    ensures |Echo(true, noteId, title, html, n)| == n
    ensures forall i :: 0 <= i < n ==> Echo(true, noteId, title, html, n)[i] == Sent(noteId, NoteUpdate(Some(title), Some(html)))
    ensures forall previous :: previous != title ==>
              CleanupAsWritten(TitleTyped(previous), noteId, title, true, Some(html)) == [Sent(noteId, NoteUpdate(Some(previous), Some(html)))]
  {
    if n > 0 {
      SaveLoopAsWritten(noteId, title, html, n - 1);
    }
  }

  /**
    Corrected, renders of the parent and typing send nothing, so no loop
    starts; leaving the note sends its latest title and content once.
  */
  lemma CleanupOnlyOnLeaving(noteId: string, title: string, html: string, n: nat)
    ensures Echo(false, noteId, title, html, n) == []
    ensures forall previous :: CleanupCorrected(TitleTyped(previous), noteId, title, true, Some(html)) == []
    ensures CleanupCorrected(Unmounted, noteId, title, true, Some(html)) == [Sent(noteId, NoteUpdate(Some(title), Some(html)))]
    ensures CleanupCorrected(NoteSwitched, noteId, title, true, Some(html)) == [Sent(noteId, NoteUpdate(Some(title), Some(html)))]
  {
  }

  // ---------------------------------------------------------------------
  // The editor

  /**
    The editor's state: the note it shows (`noteId`), the title being edited,
    the `currentNoteId` and `hasUnsavedChanges` refs, the editor's HTML
    (`None` before the editor element exists) and the updates sent so far,
    oldest first.
  */
  class EditorState {
    var noteId: string
    var title: string
    var currentNoteId: string
    var dirty: bool
    var html: Option<string>
    var sent: seq<Sent>

    /** Mounting on `note`: the title and content come from the note, nothing is unsaved. */
    constructor(note: Note, mounted: bool)
      ensures noteId == note.id && currentNoteId == note.id && title == note.title
      ensures !dirty && sent == []
      ensures html == if mounted then Some(note.content) else None
    {
      noteId := note.id;
      title := note.title;
      currentNoteId := note.id;
      dirty := false;
      html := if mounted then Some(note.content) else None;
      sent := [];
    }

    /**
      `handleTitleChange`: a new title is an unsaved change. The title is a
      dependency of the save-on-unmount effect, so when it really changes the
      re-render runs that effect's cleanup from the previous render, which
      sends the title it replaced with the current content.
    */
    method HandleTitleChange(newTitle: string)
      modifies this`title, this`dirty, this`sent
      ensures title == newTitle && dirty
      ensures newTitle != old(title) && html.Some? ==> sent == old(sent) + [Sent(noteId, NoteUpdate(Some(old(title)), Some(html.value)))]
      ensures newTitle == old(title) || html.None? ==> sent == old(sent)
    {
      var previous := title;
      title := newTitle;
      dirty := true;
      if newTitle != previous {
        sent := sent + CleanupAsWritten(TitleTyped(previous), noteId, title, dirty, html);
      }
    }

    /** `handleInput`: the user's typing changed the editor's HTML, which is an unsaved change. */
    method HandleInput(newHtml: string)
      requires html.Some?
      modifies this`html, this`dirty
      ensures html == Some(newHtml) && dirty
    {
      html := Some(newHtml);
      dirty := true;
    }

    /**
      `saveChanges`: with unsaved changes, sends the title and content under
      the shown note and clears the flag; without, does nothing.
    */
    method SaveChanges()
      modifies this`sent, this`dirty
      ensures !dirty
      ensures old(dirty) ==> sent == old(sent) + [Sent(noteId, NoteUpdate(Some(title), Some(html.GetOr(""))))]
      ensures !old(dirty) ==> sent == old(sent)
    {
      if dirty {
        sent := sent + [Sent(noteId, NoteUpdate(Some(title), Some(html.GetOr(""))))];
        dirty := false;
      }
    }

    /** `applyFormat`: `formatted` is the HTML `execCommand` leaves behind; without an editor nothing happens. */
    method ApplyFormat(formatted: string)
      modifies this`html, this`dirty
      ensures old(html).Some? ==> html == Some(formatted) && dirty
      ensures old(html).None? ==> html == old(html) && dirty == old(dirty)
    {
      if html.Some? {
        html := Some(formatted);
        dirty := true;
      }
    }

    /** `handleKeyDown`: formats or saves on a shortcut and ignores every other key. */
    method HandleKeyDown(ctrl: bool, meta: bool, key: string, formatted: string) returns (handled: Option<Shortcut>)
      modifies this`html, this`dirty, this`sent
      ensures handled == ShortcutFor(ctrl, meta, key)
      ensures handled.None? ==> html == old(html) && dirty == old(dirty) && sent == old(sent)
      ensures handled == Some(Save) ==>
                && html == old(html) && !dirty
                && sent == old(sent) + (if old(dirty) then [Sent(noteId, NoteUpdate(Some(title), Some(html.GetOr(""))))] else [])
      ensures handled.Some? && handled != Some(Save) ==>
                && sent == old(sent)
                && (old(html).Some? ==> html == Some(formatted) && dirty)
                && (old(html).None? ==> html == old(html) && dirty == old(dirty))
    {
      handled := ShortcutFor(ctrl, meta, key);
      match handled
      case None =>
      case Some(Save) =>
        SaveChanges();
      case Some(_) =>
        ApplyFormat(formatted);
    }

    /** `handleTitleKeyDown`: Enter saves and, while a new note is being created, finishes creating it. */
    method HandleTitleKeyDown(key: string, isCreatingNew: bool) returns (finishCreating: bool)
      modifies this`sent, this`dirty
      ensures finishCreating <==> key == "Enter" && isCreatingNew
      ensures key == "Enter" ==> !dirty && sent == old(sent) + (if old(dirty) then [Sent(noteId, NoteUpdate(Some(title), Some(html.GetOr(""))))] else [])
      ensures key != "Enter" ==> dirty == old(dirty) && sent == old(sent)
    {
      finishCreating := false;
      if key == "Enter" {
        SaveChanges();
        finishCreating := isCreatingNew;
      }
    }

    /**
      Unmounting runs the cleanup of the save-on-unmount effect: with unsaved
      changes and an editor, it sends the title and content under the shown
      note. It leaves the flag set.
    */
    method SaveOnCleanup()
      modifies this`sent
      ensures sent == old(sent) + if dirty && html.Some? then [Sent(noteId, NoteUpdate(Some(title), Some(html.value)))] else []
    {
      sent := sent + CleanupAsWritten(Unmounted, noteId, title, dirty, html);
    }

    /**
      The parent renders and hands the editor `note`. Its `onUpdateNote` is a
      new function on every render, so the cleanup of the save-on-unmount
      effect from the previous render always runs first: with unsaved changes
      and an editor it sends the shown note's title and content, and leaves
      the flag set. When the id differs from the current one, the note-switch
      effect then saves the unsaved content under the previous id, switches
      to the new note, takes its title and content, and clears the flag.
    */
    method ParentRendered(note: Note)
      modifies this
      ensures noteId == note.id && currentNoteId == note.id
      ensures note.id != old(currentNoteId) ==>
                && title == note.title && !dirty
                && html == (if old(html).Some? then Some(note.content) else None)
                && sent == old(sent) + (if old(dirty) && old(html).Some? then
                                          [Sent(old(noteId), NoteUpdate(Some(old(title)), Some(old(html).value)))]
                                          + (if old(currentNoteId) != "" then [Sent(old(currentNoteId), NoteUpdate(None, Some(old(html).value)))] else [])
                                        else [])
      ensures note.id == old(currentNoteId) ==>
                && title == old(title) && dirty == old(dirty) && html == old(html)
                && sent == old(sent) + (if old(dirty) && old(html).Some? then [Sent(old(noteId), NoteUpdate(Some(old(title)), Some(old(html).value)))] else [])
    {
      if note.id != currentNoteId {
        sent := sent + CleanupAsWritten(NoteSwitched, noteId, title, dirty, html);
        noteId := note.id;
        if dirty && html.Some? && currentNoteId != "" {
          sent := sent + [Sent(currentNoteId, NoteUpdate(None, Some(html.value)))];
        }
        currentNoteId := note.id;
        title := note.title;
        dirty := false;
        if html.Some? {
          html := Some(note.content);
        }
      } else {
        sent := sent + CleanupAsWritten(ParentRender, noteId, title, dirty, html);
        noteId := note.id;
      }
    }
  }
}
