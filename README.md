# A Dafny model of a notes application's core

The application is a browser note taker. It keeps a list of rich-text notes that can be pinned, edited, deleted and encrypted with a password. The list is saved in the browser's `localStorage`. A sidebar shows pinned notes above unpinned ones, each with a preview and a day label. An editor counts words and offers keyboard shortcuts. A dialog checks password strength before encrypting a note. An AI service looks up definitions of terms in a note and caches them by a 32-bit hash of the note's text. A static glossary can be searched.

This project models, one Dafny module per source file:

* `App` (`src/App.jsx`) is the notes state. It covers creating, updating, deleting and pin-toggling notes, selecting a note, and the save effect that writes the list back. The state is a class whose methods update it in place. The list operations are functions with lemmas about them.
* `Editor` (`src/components/RichTextEditor.jsx`) covers the word, character and reading-time counters and the keyboard shortcuts. Its state class handles the title, the content and the unsaved flag. It also models the effect that saves when the note changes, and the cleanup of the save-on-unmount effect, which React runs whenever one of that effect's dependencies changes.
* `NotesList` (`src/components/NotesList.jsx`) covers the split into pinned and unpinned sections, the list's own preview and date labels, and the two-step delete confirmation.
* `Modal` (`src/components/EncryptionModal.jsx`) covers the encryption dialog: its submit checks and their order, the submit button's enabled state, and the password generator button.
* `Encryption` (`src/services/encryptionService.js`) covers the salt‖IV‖ciphertext envelope, base64 conversion through a binary string, encryption and decryption, password verification and hashing, the secure password generator and the password strength checker.
* `Storage` (`src/services/storageService.js`) is the `localStorage`-backed service. It has three keys: notes, preferences and encrypted notes. Preferences are merged over defaults. The service also keeps a recent-notes list, upserts and deletes encrypted notes, and supports export with redacted content, import, and clearing all data.
* `Ai` (`src/services/aiService.js`) covers the hash that keys the cache, the configuration check, the filtering of the definitions a model returns, and the request bookkeeping: guards, cache hits, the busy flag and the cache.
* `Helpers` (`src/utils/helpers.js`) covers sorting notes, validating notes and import files, the preview text, and `formatDate`.
* `Glossary` (`src/data/glossaryTerms.js`) covers the 56-entry table, case-insensitive search and random picks.

Supporting modules:

* `Notes` holds the shared note record and the list views.
* `Base` holds `Option`/`Result`, `filter`, `findIndex`, JavaScript's `slice` and subsequences.
* `Strings` holds JavaScript whitespace, `trim`, `toLowerCase`, `includes`, `join` and number printing. A Dafny `char` is a Unicode scalar value; `Strings.Utf16` spells a string as the UTF-16 code units JavaScript holds, and `.length` is the number of those units.
* `Js` holds a dynamic JSON value with JavaScript truthiness, property access, and the `String` and `ToNumber` conversions.

Cryptography, base64, JSON text and UTF-8 are fields of a `Platform` value. The property that decrypting undoes encrypting, and the other round trips, is a predicate `Sound`. Lemmas take `Sound` as a hypothesis, so nothing about the platform is assumed.

## Model

| member | source | states |
|---|---|---|
| App.AppState.constructor | src/App.jsx:12-21 | On mount the notes are the saved list, or empty when nothing was saved, and the first note is selected when there is one. |
| App.AppState.PersistNotes | src/App.jsx:24-28 | The save effect (corrected form, see Findings): the stored list becomes one that restores to exactly the current notes. |
| App.Persist | src/App.jsx:24-28 | Whatever the notes, reloading what was saved gives back exactly those notes, even when the list is empty. |
| App.DeletingLastNoteIsNotPersisted | src/App.jsx:24-28 | As written, deleting the only note leaves the old one-note list in storage, so the note comes back on reload. |
| App.AppState.CreateNewNote | src/App.jsx:30-43 | A fresh untitled, unpinned note is put first, selected, and the editor enters the creating state. |
| App.AppState.UpdateNote | src/App.jsx:45-55 | The note list becomes the by-id update. The current note carries the new fields and timestamp exactly when it is the updated note; otherwise it is untouched. |
| App.UpdateById | src/App.jsx:46-50 | Updating by id keeps the list's length. |
| App.UpdateKeepsOthers | src/App.jsx:46-50 | Every note with another id is unchanged. A note with the id gets the given title and content, keeps its other fields and gets the new `updatedAt`. |
| App.AppState.DeleteNote | src/App.jsx:57-64 | The list loses exactly the notes with that id. The selection moves only when the deleted note was selected. |
| App.DeleteRemovesOnlyId | src/App.jsx:58 | After deleting, no note has that id. The rest keep their order, every note with another id remains, and an unknown id changes nothing. |
| App.DeleteMovesSelection | src/App.jsx:59-63 | Deleting the selected note selects the first remaining note. Nothing is selected exactly when every note had that id. |
| App.AppState.TogglePinNote | src/App.jsx:66-91 | The list is rebuilt with the note's pin flipped. The selection is updated to the flipped note only when it was the toggled one. |
| App.TogglePinUnknownId | src/App.jsx:67-70 | Toggling an id that is not in the list changes nothing. |
| App.TogglePinOrdersGroups | src/App.jsx:72-86 | After a toggle, every pinned note comes before every unpinned note. |
| App.TogglePinPlacement | src/App.jsx:72-86 | A newly pinned note goes to the very front. A newly unpinned note goes right after the pinned notes. |
| App.TogglePinIsPermutation | src/App.jsx:66-86 | With unique ids, the toggled list holds the same notes as the original, with only that note's pin flipped. |
| App.TogglePinKeepsGroupOrder | src/App.jsx:72-86 | Apart from the toggled note, the pinned notes keep their relative order, and so do the unpinned notes. |
| App.RegroupedMultiset | src/App.jsx:72-86 | Regrouping the flipped note with the others loses and duplicates nothing. |
| App.AppState.SelectNote | src/App.jsx:93-96 | Selecting a note shows it and leaves the creating state. |
| Notes.FindById | src/App.jsx:67-68 | `find` by id fails exactly when no note has the id. Otherwise it returns the first note of the list with that id. |
| Notes.PinnedFirstIsPartition | src/components/NotesList.jsx:75-76 | For a list with pinned notes first, the pinned section followed by the unpinned section is the list itself. |
| NotesList.SectionMembers | src/components/NotesList.jsx:75-76 | Each note appears in the section named by its pin state and in no other. |
| NotesList.SectionsCoverOnce | src/components/NotesList.jsx:75-76 | The two sections keep the list's order and together hold every note exactly once. |
| NotesList.ListPreviewCases | src/components/NotesList.jsx:60-72 | Absent content or empty text shows "No additional text". Text over 100 characters shows its first 100 plus "...". Other text shows whole. Where the text is not all whitespace, the list agrees with the shared helper. |
| NotesList.WhitespacePreviewsDiffer | src/components/NotesList.jsx:60-72 | For whitespace-only text the list shows the whitespace, while the shared helper shows "No additional text". |
| NotesList.ListDateBuckets | src/components/NotesList.jsx:27-58 | Zero days is "Today" and one day is "Yesterday". "n days ago" is shown exactly for 2 to 7 days. Future dates and older dates show the calendar date. |
| NotesList.NoteListState.HandleDeleteClick | src/components/NotesList.jsx:6-9 | The delete button only makes that note's confirmation pending. This is one `Step` of the click machine that `DeletesAreConfirmed` runs. |
| NotesList.NoteListState.ConfirmDelete | src/components/NotesList.jsx:11-15 | Confirming the pending note asks for exactly that note to be deleted and hides the confirmation. This is one `Step` of the click machine that `DeletesAreConfirmed` runs. |
| NotesList.NoteListState.CancelDelete | src/components/NotesList.jsx:17-20 | Cancelling hides the confirmation and deletes nothing. This is one `Step` of the click machine that `DeletesAreConfirmed` runs. |
| NotesList.NoteListState.HandlePinClick | src/components/NotesList.jsx:22-25 | The pin button asks for that note's pin to be toggled. This is one `Step` of the click machine that `DeletesAreConfirmed` runs. |
| NotesList.DeletesAreConfirmed | src/components/NotesList.jsx:6-25 | In any run of clicks, every deletion requested is a confirm click for that note, made when the confirmation showing was that note's own. |
| NotesList.ConfirmOrCancel | src/components/NotesList.jsx:111-125 | Delete then cancel deletes nothing. Delete then confirm deletes that note. A confirm for another note cannot be clicked. |
| Editor.EditorState.constructor | src/components/RichTextEditor.jsx:15-22 | The editor starts on the note's id and title with nothing unsaved. The content is set only once the editable element exists. |
| Editor.EditorState.HandleTitleChange | src/components/RichTextEditor.jsx:77-81 | Typing a title stores it and marks the note unsaved. When the title really changed and the editor exists, the cleanup of the previous render then sends the title it replaced with the current content. |
| Editor.EditorState.HandleInput | src/components/RichTextEditor.jsx:83-85 | Typing content marks the note unsaved. |
| Editor.EditorState.SaveChanges | src/components/RichTextEditor.jsx:100-109 | Unsaved changes send the title and content under the note's id once, then clear the flag. Nothing is sent when there is nothing unsaved. |
| Editor.EditorState.ApplyFormat | src/components/RichTextEditor.jsx:111-117 | Formatting changes the content and marks it unsaved, but only when the editable element exists. |
| Editor.ShortcutCases | src/components/RichTextEditor.jsx:119-143 | Ctrl or Cmd with b, i, u or s is a shortcut and nothing else is. Only s saves. Different keys give different shortcuts. |
| Editor.EditorState.HandleKeyDown | src/components/RichTextEditor.jsx:119-143 | Any other key changes nothing. Ctrl/Cmd+S saves as `SaveChanges` does. A formatting shortcut formats the content without sending anything. |
| Editor.EditorState.HandleTitleKeyDown | src/components/RichTextEditor.jsx:87-98 | Enter saves and finishes creating exactly when a note is being created. Other keys change nothing. |
| Editor.EditorState.SaveOnCleanup | src/components/RichTextEditor.jsx:151-161 | On unmount, unsaved changes are sent under the shown note with its title, and the flag stays set. |
| Editor.EditorState.ParentRendered | src/components/RichTextEditor.jsx:43-60 | Every render of the parent runs the cleanup first, which sends unsaved changes again. Switching to another note then also sends the unsaved content under the previous id when there was one, loads the new note's title and content, and clears the flag. A render with the same note changes nothing else. |
| Editor.SaveLoopAsWritten | src/components/RichTextEditor.jsx:151-161 | As written, with unsaved changes, n renders of the parent send the same title and content n times, each send causing the next render. Typing a title sends the title it replaced. |
| Editor.CleanupOnlyOnLeaving | src/components/RichTextEditor.jsx:151-161 | Corrected: parent renders and typing send nothing, and leaving the note sends its latest title and content once. |
| Editor.WordCountMeaning | src/components/RichTextEditor.jsx:174-178 | The word count is the number of places where a word starts after whitespace or at the start. It is zero exactly for whitespace-only text and never exceeds the character count in UTF-16 code units. |
| Editor.SplitCountsWordStarts | src/components/RichTextEditor.jsx:176-177 | Splitting on whitespace and dropping empty pieces leaves one piece per word start. |
| Editor.TrimStartKeepsStarts | src/components/RichTextEditor.jsx:176 | Trimming leading whitespace does not change the number of words. |
| Editor.TrimEndKeepsStarts | src/components/RichTextEditor.jsx:176 | Trimming trailing whitespace does not change the number of words. |
| Editor.NoStartsMeansWhitespace | src/components/RichTextEditor.jsx:174-178 | A text has no word start exactly when it is all whitespace. |
| Editor.ReadingTime | src/components/RichTextEditor.jsx:185-188 | The reading time is the least number of minutes covering the words at 200 a minute. It is zero only for zero words. |
| Editor.ReadingTimeOfText | src/components/RichTextEditor.jsx:185-188 | The reading time is zero exactly when there is no editor or the text is all whitespace. |
| Modal.ValidationOrder | src/components/EncryptionModal.jsx:30-48 | Decrypting checks nothing. Encrypting reports a mismatch first, even for a weak password. It then rejects scores under 3 with "Password is too weak. " followed by the unmet advice. |
| Modal.ModalState.HandleSubmit | src/components/EncryptionModal.jsx:30-63 | A failed check shows its error and calls nothing. Otherwise the dialog calls encrypt or decrypt, then close only if that completed, or shows the thrown message (a generic one when empty). It never stays processing. |
| Modal.DisabledMatchesValidation | src/components/EncryptionModal.jsx:12-19 | With the strength shown by the effect, the submit button is disabled exactly when processing, or when submitting would fail the checks. |
| Modal.ModalState.SetPassword | src/components/EncryptionModal.jsx:12-19 | After a password is typed, the shown strength is the checker's result, and only in encrypt mode for a non-empty password. |
| Modal.ModalState.Open | src/components/EncryptionModal.jsx:21-28 | Opening clears both entries, the error and the strength. |
| Modal.ModalState.GeneratePassword | src/components/EncryptionModal.jsx:65-69 | Both entries get the same 16 generated characters, and the strength is refreshed. |
| Modal.EmptyPasswordIsInvalid | src/services/encryptionService.js:159-192 | The empty password meets no criterion and is invalid. |
| Modal.GeneratedCanBeWeak | src/components/EncryptionModal.jsx:65-69 | A generated password can be rejected: sixteen zero bytes give sixteen 'A's, which is too weak. |
| Encryption.BytesToBinary | src/services/encryptionService.js:195-202 | The binary string has one character per byte, each below 256. |
| Encryption.BinaryRoundTrip | src/services/encryptionService.js:195-211 | Reading back the bytes of a binary string gives the original bytes. |
| Encryption.SetAt | src/services/encryptionService.js:74-77 | `set` overwrites exactly the target range with the source and leaves the rest untouched. |
| Encryption.BuildEnvelope | src/services/encryptionService.js:74-77 | The combined buffer is salt, then IV, then ciphertext. |
| Encryption.SplitEnvelope | src/services/encryptionService.js:98-100 | Decryption's slices take back exactly the salt, the IV and the ciphertext that encryption put together. |
| Encryption.ArrayBufferToBase64 | src/services/encryptionService.js:195-202 | The loop builds the binary string of the buffer, which is then base64-encoded. |
| Encryption.Base64ToArrayBuffer | src/services/encryptionService.js:204-211 | Invalid base64 throws. Otherwise the new buffer holds one byte per decoded character. |
| Encryption.EncryptNote | src/services/encryptionService.js:48-89 | Encrypting returns the base64 of salt, IV and ciphertext, marked encrypted and stamped with the time. A failed encryption becomes the one "Failed to encrypt note" error. |
| Encryption.DecryptNote | src/services/encryptionService.js:92-133 | Decryption succeeds with the payload's content and timestamp, or fails with the one "Invalid password or corrupted data" result. |
| Encryption.DecryptSpec | src/services/encryptionService.js:127-131 | Every failure is the same failure result, and a success carries no error. |
| Encryption.EncryptThenDecrypt | src/services/encryptionService.js:48-133 | On a sound platform, decrypting an encrypted note with the same password gives back its content and timestamp. |
| Encryption.VerifyPassword | src/services/encryptionService.js:136-143 | A password is verified exactly when decryption with it succeeds. |
| Encryption.VerifyOwnPassword | src/services/encryptionService.js:136-143 | The password a note was encrypted with verifies. |
| Encryption.BadBase64Fails | src/services/encryptionService.js:92-133 | Content that is not base64 fails to decrypt, with the common failure. |
| Encryption.HashPassword | src/services/encryptionService.js:214-219 | The hash is the base64 of the SHA-256 digest of the UTF-8 password. |
| Encryption.CharRange | src/services/encryptionService.js:147 | Each character range holds the consecutive code points from its first character. |
| Encryption.GenerateSecurePassword | src/services/encryptionService.js:146-156 | Each generated character is the charset entry at its random byte modulo the charset size. The length is as asked. |
| Encryption.CharsetMeetsCriteria | src/services/encryptionService.js:147 | Every charset character is an upper-case letter, a lower-case letter, a digit or a listed special character. |
| Encryption.CheckPasswordStrength | src/services/encryptionService.js:159-192 | The step-by-step checker computes the strength that the five criteria define. |
| Encryption.StrengthAccounting | src/services/encryptionService.js:159-192 | Score plus advice count is 5. The advice keeps the criteria's order and names every unmet one. The password is valid exactly from score 3. The label is "very strong" exactly when there is no advice. |
| Encryption.CountAndUnmet | src/services/encryptionService.js:166-186 | Each criterion either scores a point or adds its advice, in order. |
| Encryption.ShortLowercaseIsWeak | src/services/encryptionService.js:159-192 | "abc" scores 1, is weak, is invalid and gets four pieces of advice. |
| Encryption.MixedPasswordIsVeryStrong | src/services/encryptionService.js:159-192 | "Tr0ub4dor&3" scores 5, is very strong and gets no advice. |
| Storage.StorageService.constructor | src/services/storageService.js:4-22 | The service starts over the given store. |
| Storage.StorageService.SaveNotes | src/services/storageService.js:25-39 | The notes key is written with the notes, the version and the time. |
| Storage.SaveThenLoadNotes | src/services/storageService.js:25-58 | Loading after saving gives back the saved notes, or `[]` when they were falsy. |
| Storage.LoadNotesCases | src/services/storageService.js:41-58 | Loading gives `[]` from an empty store or unreadable JSON, and accepts a bare legacy array. |
| Storage.StorageService.SavePreferences | src/services/storageService.js:61-75 | The preferences key is written with the defaults, the preferences over them, and the time. Corrected form: the defaults are never handed out, so they are always the initial ones (see Findings). |
| Storage.LoadPreferencesMerges | src/services/storageService.js:77-88 | Loaded preferences always include every default key, saved values override the defaults, and with nothing saved they are the defaults. |
| Storage.StorageService.UpdatePreference | src/services/storageService.js:90-94 | The saved preferences become the loaded ones with the key assigned, stamped with the time. Assigning `__proto__` stores nothing unless it is already an own key. Corrected form: the defaults are not written into (see Findings). |
| Storage.UpdateThenLoadPreference | src/services/storageService.js:90-94 | After an update, the key loads the new value, `lastUpdated` loads the time, and every other key loads what it did before. A `__proto__` key that was not loaded before stays absent. |
| Storage.StorageService.AddToRecentNotes | src/services/storageService.js:97-116 | The recent list becomes the new entry followed by the others, cut to the maximum, and is saved. An unreadable list makes the call do nothing. Corrected form: the defaults are not written into (see Findings). |
| Storage.RecentAfterAddProperties | src/services/storageService.js:97-116 | For any maximum that reads as a positive number, the new entry is first, the list is at most the maximum long, no other entry has that id, and the rest keep their earlier order. |
| Storage.SliceEndReadsLimits | src/services/storageService.js:112 | `slice` reads the maximum as JavaScript does: a numeric string or a one-number array cuts like the number, `undefined` keeps the whole list, and an object cuts to nothing. |
| Storage.SliceEndOfNumber | src/services/storageService.js:112 | A maximum that reads as a number cuts at that number. |
| Js.NumeralStringReadsBack | src/services/storageService.js:112 | A number's decimal spelling converts back to that number. |
| Js.NumberArrayReadsBack | src/services/storageService.js:112 | An array holding just a number converts to that number. |
| Storage.FirstRecentNote | src/services/storageService.js:97-116 | From an empty store the recent list becomes just the new entry. |
| Storage.LookupId | src/services/storageService.js:172 | `findIndex` by id finds the first record with the id, or reports that none has it. |
| Storage.StorageService.FindIndex | src/services/storageService.js:172 | The scan stops at the first record with the saved record's id, throws at an unreadable record before it, or reports absence. A nullish saved record throws at the first record, and on an empty list is simply not found. |
| Storage.StorageService.SaveEncryptedNote | src/services/storageService.js:169-186 | The record replaces the first one with its id, or is appended. A nullish record is appended to an empty list. Any error leaves the store unchanged and returns false. |
| Storage.UpsertPlacement | src/services/storageService.js:172-178 | A record whose id exists replaces the first record with that id and nothing else. A record with a new id is appended. |
| Storage.UpsertKeepsIdsUnique | src/services/storageService.js:169-186 | Saving a record keeps the ids of the encrypted notes unique. |
| Storage.StorageService.DeleteEncryptedNote | src/services/storageService.js:198-208 | The records with that id are removed and the rest are kept. An unreadable list returns false and changes nothing. |
| Storage.DeleteRecordProperties | src/services/storageService.js:198-208 | No remaining record has the id, the rest keep their order, and an unknown id changes nothing. |
| Storage.ExportRedactsContent | src/services/storageService.js:124-146 | The export lists every encrypted note with its content replaced by "[ENCRYPTED]" and every other field kept. |
| Storage.StorageService.ImportData | src/services/storageService.js:148-166 | Parsed data replaces the notes and preferences it has, each only when present. Unparsable data changes nothing and returns false. |
| Storage.Cleared | src/services/storageService.js:239-250 | Clearing removes exactly the three keys of the application. |
| Storage.StorageService.ClearAllData | src/services/storageService.js:239-250 | The store loses the three keys. |
| Storage.ClearThenLoad | src/services/storageService.js:239-250 | After clearing, notes and encrypted notes load empty and preferences load the defaults. |
| Storage.ClearKeepsUpdatedDefault | src/services/storageService.js:80-94 | As written, updating "theme" on an empty store changes the shared defaults, so after clearing, "theme" still loads "dark". |
| Storage.ClearAfterUpdateRestoresDefaults | src/services/storageService.js:77-94 | With a copied defaults object, clearing after any update loads exactly the defaults. |
| Storage.ClearKeepsRecentNote | src/services/storageService.js:97-116 | As written, opening a note on an empty store puts it in the shared defaults, so after clearing the recent list still holds it. |
| Storage.ClearForgetsRecentNotes | src/services/storageService.js:117-120 | With a copied defaults object, the recent list is empty after clearing, whatever was stored. |
| Ai.AiService.constructor | src/services/aiService.js:4-11 | The service starts with an empty cache and not busy. |
| Ai.IsConfiguredCases | src/services/aiService.js:261-265 | The service is configured exactly when the key is present, is not the placeholder and is longer than 10 UTF-16 code units. The placeholder alone would pass the length test. |
| Ai.Int32 | src/services/aiService.js:243 | `hash & hash` brings any integer into the signed 32-bit range. |
| Ai.HashText | src/services/aiService.js:238-247 | The loop over the text's UTF-16 code units gives the hash key: the number 0 for empty text, otherwise 1 to 10 decimal digits. |
| Ai.HashIsWrappedPolynomial | src/services/aiService.js:238-247 | The loop's hash is the base-31 polynomial of the UTF-16 code units, wrapped to 32 bits. |
| Ai.HashFoldExtends | src/services/aiService.js:240-244 | Code units with equal hashes keep equal hashes after the same suffix. |
| Ai.CollidingTexts | src/services/aiService.js:34-38 | Different texts such as "Aa…" and "BB…" share a cache key, so one text can be answered with the other's cached terms. |
| Ai.AiService.Begin | src/services/aiService.js:14-40 | Short or missing text, a missing key and a request in flight each answer `{}`, checked in that order. A cached text answers from the cache. Otherwise the service becomes busy and asks for a request under the text's key. |
| Ai.AiService.Finish | src/services/aiService.js:40-57 | A successful request caches and returns its terms. A failed one returns `{}`. Either way the service is no longer busy. |
| Ai.AiService.ExtractAndDefineTerms | src/services/aiService.js:14-58 | A whole call answers `{}` on the guards and does not change the busy flag. It returns a hit from the cache, or caches a successful result. |
| Ai.AiService.ClearCache | src/services/aiService.js:250-253 | The cache becomes empty. |
| Ai.Clean | src/services/aiService.js:221-222 | A cleaned string is no longer than the original and has no double quote. |
| Ai.FilterDefinitions | src/services/aiService.js:216-224 | The loop keeps exactly the definitions that the filtering rule defines, which drops a term that cleans to `__proto__`. |
| Ai.KeptIsLastWriter | src/services/aiService.js:216-224 | A cleaned term other than `__proto__` is kept exactly when some acceptable entry cleans to it. Its definition is the cleaned definition of the last such entry. |
| Ai.ProtoTermIsDropped | src/services/aiService.js:223 | Assigning to `__proto__` on the fresh result object stores nothing, so that term is never kept. |
| Ai.KeptShape | src/services/aiService.js:216-224 | Kept terms and definitions have no double quotes, and definitions are shorter than 300 characters. |
| Ai.ParseGeminiResponse | src/services/aiService.js:191-235 | An unparsable response gives `{}`, and so does one with no acceptable entry. |
| Ai.NothingAcceptable | src/services/aiService.js:216-224 | When no entry passes the length and type test, nothing is kept. |
| Helpers.SortNotes | src/utils/helpers.js:83-92 | Sorting gives a sorted permutation of the notes. |
| Helpers.SortNotesOrder | src/utils/helpers.js:83-92 | The sorted list holds the same notes, puts pinned notes first, and otherwise lists the most recently updated first. |
| Helpers.CompareMeansPrecedes | src/utils/helpers.js:84-91 | The comparator's sign agrees with the intended order, and it is total. |
| Helpers.PrecedesTransitive | src/utils/helpers.js:84-91 | The comparator's order is transitive. |
| Helpers.ValidateNoteShape | src/utils/helpers.js:95-105 | A valid note is an object with all six fields. A serialized note is valid exactly when its two date strings are non-empty. |
| Helpers.AcceptsImport | src/utils/helpers.js:144 | An import is accepted exactly when it is an array of valid notes. |
| Helpers.ImportNotes | src/utils/helpers.js:138-156 | The import succeeds with the parsed notes exactly when the file was read, parses and is accepted. Otherwise it reports the read, parse or format error. |
| Helpers.PreviewTextCases | src/utils/helpers.js:38-46 | Whitespace-only text has no preview. Longer text is cut to the limit plus "...". Other text shows whole. |
| Helpers.SameInstantIsMinusOneDaysAgo | src/utils/helpers.js:10-18 | As written, a date at the same instant as now is labelled "-1 days ago". |
| Helpers.FormatDateBuckets | src/utils/helpers.js:7-26 | Corrected: each rounded-up day difference gets exactly one label, "n days ago" names 2 to 6, and every difference of at least one day gets the label written in the source. |
| Glossary.SearchTermsExact | src/data/glossaryTerms.js:79-88 | Search keeps the table's order and returns exactly the entries whose term or definition contains the lower-cased query. The empty query returns every term. |
| Glossary.SearchExact | src/data/glossaryTerms.js:79-88 | The same properties hold for any table. |
| Glossary.SearchIgnoresCase | src/data/glossaryTerms.js:79-88 | Queries that lower-case alike find the same entries. |
| Glossary.EmptyQueryReturnsAll | src/data/glossaryTerms.js:79-88 | The empty query matches every entry. |
| Glossary.TermsAreUnique | src/data/glossaryTerms.js:2-66 | No term appears twice in the table, as the keys of the source's object literal are distinct. |
| Glossary.RandomTermsAreDistinct | src/data/glossaryTerms.js:69-76 | A random pick is the first `count` entries of the shuffled table: at most `count` entries, all from the table, with no term twice. |

## Left out

* Cryptography (PBKDF2, AES-GCM, SHA-256), base64, `JSON.stringify`/`JSON.parse` and UTF-8 encoding are functions of a `Platform` parameter. They are not defined, and their correctness is the hypothesis `Sound`.
* Random bytes, salts and IVs, the clock and ISO date strings are parameters.
* `getStorageStats` is not modelled, because it measures sizes with `Blob`.
* `localStorage` write exceptions are not modelled: writes always succeed.
* App.AppState.constructor: it takes the saved list already parsed. In the source, unreadable JSON under 'notes' makes `JSON.parse` throw out of the mount effect, and a saved value that parses to something other than an array of notes is installed as it is.
* The DOM is not modelled: `innerHTML`, the browser's text extraction (`extractTextFromHtml`), `document.execCommand` and `sanitizeHtml`. The editor takes the text and the formatted HTML as parameters.
* React's rendering and effect scheduling are not modelled, nor the glossary highlighters and other components outside this model. The editor's effects are methods called at the points where React runs them: `ParentRendered` for every render of `App`, `HandleTitleChange` together with the re-render it causes, and `SaveOnCleanup` for unmounting.
* `useGemini` is not modelled, because it is the network request.
* Ai.ParseGeminiResponse: it takes the parsed entries as its `entries` parameter, or none when no JSON object is found or parsing fails. The trimming, the markdown-fence and brace stripping, the regular-expression match and `JSON.parse` in `parseGeminiResponse` (src/services/aiService.js:194-212) are not modelled.
* Timers (`debounce`), `generateId`, `saveToLocalStorage`, `loadFromLocalStorage` and `exportNotes` are not modelled, because they are I/O or download wrappers. Ids are parameters.
* `toLowerCase` is modelled on ASCII letters only.
* NotesList.ListPreviewCases: the 100-character test and cut count characters, not UTF-16 code units. `substring` can cut a surrogate pair in two, which a Dafny string cannot hold. Without characters beyond U+FFFF the two agree.
* Helpers.PreviewTextCases: the same holds for the shared helper's limit.
* Ai.KeptShape: the 300 bound on kept definitions is stated in characters. The source bounds the UTF-16 length before cleaning, which is at least the character count.
* Numbers in `Js.Value` are integers, so fractions cannot be expressed: a stored `maxRecentNotes` of 2.5, which `slice` reads as 2, is outside the model.
* Storage.LookupId: ids are compared structurally. The source's `===` compares array and object ids by identity, so such an id never matches a record parsed from storage, while the model finds a structurally equal one. For string, number, boolean and null ids the two agree.
* Storage.SliceEndReadsLimits: a string is read as a number only when it is a signed decimal integer or `Infinity`. Fractions, exponents and hexadecimal, octal or binary prefixes, which JavaScript also reads, read as NaN here.
* `JSON.stringify` dropping `undefined` fields is not modelled; values are JSON values.
* Helpers.SortNotes: the comparator is modelled as an ordering the sort respects. `Array.prototype.sort`'s own algorithm is not modelled.
* Glossary.GetRandomTerms: the random comparator `() => 0.5 - Math.random()` is replaced by the order it leaves, given as a parameter listing each table index once. Which orders a real `sort` with that comparator can produce is not modelled.
* Locale date and time formatting is abstract: a `CalendarDate` label stands for the formatted date.
* App.UpdateById: its own contract states only the length; what happens to each note is the lemma `App.UpdateKeepsOthers`.
* Neither `Helpers.FormatDate` nor `Helpers.SortNotes` is called by the user interface: `NotesList` has its own date and preview code, modelled separately.
* `StorageService` is not called by `App`, which keeps its own `localStorage` key.

## Findings

| source | as written | input that shows it | evidently intended | confidence | as-written member | corrected member |
|---|---|---|---|---|---|---|
| src/App.jsx:24-28 | The save effect writes the notes only when the list is not empty. | Notes `[n]`, then `deleteNote(n.id)`: storage still holds `[n]`, and `n` comes back on reload. | Every change is saved, including deleting the last note. | not executed | App.DeletingLastNoteIsNotPersisted | App.Persist |
| src/utils/helpers.js:10-18 | The difference is rounded up, then 1 is Today, 2 is Yesterday and up to 7 is `${diffDays - 1} days ago`, so 0 falls into the last case. | A date equal to now (difference 0 ms): "-1 days ago". | A difference of 0 is "Today". | not executed | Helpers.SameInstantIsMinusOneDaysAgo | Helpers.FormatDateBuckets |
| src/services/storageService.js:80,86,92 | `loadPreferences` returns the shared defaults object when nothing is saved, and `updatePreference` writes into it. | Empty store, `updatePreference("theme", "dark")`, `clearAllData()`, then `loadPreferences().theme` is "dark". | Defaults are copied, so clearing restores "light". | not executed | Storage.ClearKeepsUpdatedDefault | Storage.ClearAfterUpdateRestoresDefaults |
| src/services/storageService.js:80,99,114 | `addToRecentNotes` assigns the new recent list to the loaded preferences, which are the shared defaults object when nothing is saved. | Empty store, `addToRecentNotes("n1", "A")`, `clearAllData()`, then `getRecentNotes()` still lists n1. | Clearing forgets every recent note. | not executed | Storage.ClearKeepsRecentNote | Storage.ClearForgetsRecentNotes |
| src/components/RichTextEditor.jsx:151-161 | The save-on-unmount effect depends on the title and on `onUpdateNote`, which `App` creates anew on every render (src/App.jsx:45,138). So its cleanup runs on every title change and every render of `App`, not only on unmount, and it sends without clearing the unsaved flag. | Type in the content, then one letter in the title: the cleanup sends the old title. The send updates `App`'s notes, `App` renders with a new callback, the cleanup sends again, and so on until a blur, Ctrl+S or Enter clears the flag. | Save once, with the latest title, when the editor leaves the note or unmounts. | not executed | Editor.SaveLoopAsWritten | Editor.CleanupOnlyOnLeaving |
