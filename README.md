# BeatHopEditor editing core in Dafny

This project models the editing-state engine of BeatHopEditor, a beatmap
editor. A map holds notes on five lanes (lane `X` from 0 to 4, time in
milliseconds), timing points (BPM from a given time) and bookmarks. The model
covers:

- **Notes and the map codec.**
  - The `Note` class, its text form `",{X rounded to 2 places}|0|{Ms}"` and its parsing constructor.
  - The shareable map text `id` + `,x|0|d` records, where `d` is the second difference of note times (`Map.Save`, `Map.Parse`).
  - The ten-item cache record `Map.ToString` / `Map.FromString`.
  - Bookmark copy and paste, and the legacy `KEY=value` properties loader.
- **Timing resolution.** `GetCurrentBpm`, `GetClosestBeat`, `GetClosestBeatScroll`, `GetClosestNote` and `Advance`, over reals with round-half-to-even.
- **Document switching.** `Map.MakeCurrent`, `Map.Save` and `Map.Close`. The shared editing context is an explicit `Editor` object holding the lists, the scalars and the undo history as an `(actions, index)` pair. A `Session` holds the open maps and the current one.
- **Edit commands and selection.**
  - Every undo/redo unit (ADD NOTE, PASTE, CUT, DELETE, MIRROR, SCALE, TWEEN, MOVE NOTE, MOVE POINT) is a `Command` record read by one interpreter, `Editing.Editor.Apply`.
  - The shift, ctrl and plain click selection rules.
  - The lane-bounded drag on the grid, the clamped time drag on the track, and stable sorting by time.
- **Small UI state machines.** The cyclic option button, the map-tab pagination of the menu, the editor panel's nav toggle, and the keybinds window (`CAS` and the reset table).

Notes and timing points are classes whose fields the commands change in place. The editor's lists, a map's stored lists, the selection and the commands all hold references to the same `Note` objects: `MakeCurrent` and `Save` copy the lists, not the notes. The model keeps that sharing visible.

## Model

| member | source | states |
|---|---|---|
| Common.RoundHalfEven | Editor/BeatHopEditor/Types/Note.cs:31 | `Math.Round` to a whole number lands within 0.5 of the value and, on a tie, on the even neighbour |
| Common.Trunc | Editor/BeatHopEditor/Types/Map.cs:286 | The `(long)` cast truncates toward zero: the result lies within 1 of the value, on the zero side |
| Common.TruncWhole | Editor/BeatHopEditor/Types/Map.cs:286 | Casting a whole number gives it back |
| Common.ClampInt | Editor/BeatHopEditor/GUI/GuiGrid.cs:509-510 | The clamp lies in [lo, hi] when that range is non-empty, keeps a value inside it, and gives the nearer bound otherwise |
| Common.ClampReal | Editor/BeatHopEditor/GUI/GuiTrack.cs:627 | The same clamp over reals |
| Text.IntRoundTrip | Editor/BeatHopEditor/Types/Note.cs:26-33 | `long.Parse` of any integer's printed text gives the integer back |
| Text.DecimalRoundTrip | Editor/BeatHopEditor/Types/Note.cs:25-31 | `float.Parse` of a lane printed to two places gives back that many hundredths |
| Text.SplitJoin | Editor/BeatHopEditor/Types/Map.cs:144-148 | Splitting a join on a character found in no piece gives back the pieces |
| Text.ToUpper | Editor/BeatHopEditor/GUI/GuiButtonList.cs:14 | Upper-casing keeps the length, maps each ASCII lower-case letter to its capital and keeps every other character |
| Notes.Note.constructor | Editor/BeatHopEditor/Types/Note.cs:15-19 | A new note has the given lane and time, drag start 0, and is not selected |
| Notes.Note.Clone | Editor/BeatHopEditor/Types/Note.cs:36-39 | The clone is a distinct (fresh) note with the same lane and time and default drag start and selection |
| Notes.Round2 | Editor/BeatHopEditor/Types/Note.cs:31 | Rounding the lane to two places moves it by at most 0.005 |
| Notes.ParseNoteText | Editor/BeatHopEditor/Types/Note.cs:21-27 | A note is read only when there are at least three `\|` fields; the lane is field 0 as a decimal and the time is field 2 as an integer; otherwise there is no note, standing for the thrown exception |
| Notes.FromText | Editor/BeatHopEditor/Types/Note.cs:21-27 | Gives a fresh note exactly when the text parses, with the parsed lane and time and default drag and selection fields |
| Notes.FieldsTextSplit | Editor/BeatHopEditor/Types/Note.cs:33 | The text splits into exactly three fields on `\|`: the rounded lane, a literal `0` and the time |
| Notes.FieldsTextRoundTrip | Editor/BeatHopEditor/Types/Note.cs:21-34 | Reading a written lane of h hundredths and a time gives back h/100 and the same time |
| Notes.NoteTextRoundTrip | Editor/BeatHopEditor/Types/Note.cs:21-34 | Parsing `ToString` without its leading comma gives the same time and the lane rounded to two places |
| Notes.MiddleFieldIgnored | Editor/BeatHopEditor/Types/Note.cs:21-27 | Two texts that differ only in field 1 parse alike |
| Commands.CountLabel | Editor/BeatHopEditor/MainWindow.cs:458 | The label gets a plural `S` exactly when more than one note is involved |
| Commands.PasteLabelAsWritten | Editor/BeatHopEditor/MainWindow.cs:423 | The paste label as written is `PASTE NOTES` whenever something is pasted |
| Commands.SinglePasteLabel | Editor/BeatHopEditor/MainWindow.cs:423 | Pasting one note is labelled `PASTE NOTES`, which differs from the count rule's `PASTE NOTE` |
| MapCodec.Prepared | Editor/BeatHopEditor/Types/Map.cs:286-288 | With copy, the clone's lane is in [0, 4] and its time before the offset is in [0, max]. Without copy, the clone keeps lane and time. With applyOffset, the offset is added to the time |
| MapCodec.PrepareClone | Editor/BeatHopEditor/Types/Map.cs:286-288 | Save writes a fresh clone whose values are the prepared ones; the input note is not changed |
| MapCodec.Save | Editor/BeatHopEditor/Types/Map.cs:270-300 | The text is the id followed by one record per prepared note, with the truncated export offset. The input notes are not changed |
| MapCodec.WriteRecord | Editor/BeatHopEditor/Types/Map.cs:283-297 | One loop turn keeps (text so far + records still to write) equal to the whole text, moving on to this note's time and difference |
| MapCodec.RecordTexts | Editor/BeatHopEditor/Types/Map.cs:290-296 | A record holds the rounded lane and d = (ms - prevMs) - prevDiff; the next record continues from this note's time and difference |
| MapCodec.DecodeTimed | Editor/BeatHopEditor/Types/Map.cs:259-262 | Outside ss mode, the decoded time is the new running total, the old total plus the new running difference |
| MapCodec.DecodeShifted | Editor/BeatHopEditor/Types/Map.cs:249-256 | In ss mode the running sums do not move, and without alt the lane lies in [0, 4] |
| MapCodec.Parse | Editor/BeatHopEditor/Types/Map.cs:232-268 | Returns the first comma field as the id. Keeps the caller's list as a prefix and appends fresh notes for the decoded records. ok is false where Parse would throw, and notes appended before that stay appended |
| MapCodec.AppendDecoded | Editor/BeatHopEditor/Types/Map.cs:240-265 | Parse's loop appends exactly the decoded values after the caller's notes |
| MapCodec.DecodeField | Editor/BeatHopEditor/Types/Map.cs:242-263 | One loop pass skips a blank field, stops at a field that does not parse, or appends one fresh note and moves the sums |
| MapCodec.DecodeWithBlank | Editor/BeatHopEditor/Types/Map.cs:242 | Blank fields are skipped; blank is `IsNullOrWhiteSpace`, every character Unicode white space |
| MapCodec.NoBreakSpaceFieldSkipped | Editor/BeatHopEditor/Types/Map.cs:242 | A field of only U+00A0 no-break spaces is skipped like an empty one, leaving the later fields and the sums as they were |
| MapCodec.DecodeWithNone | Editor/BeatHopEditor/Types/Map.cs:246-247 | The first field that does not parse ends decoding with failure |
| MapCodec.RecordsDecode | Editor/BeatHopEditor/Types/Map.cs:259-260 | The two running sums undo the second differences: the records of any note list decode back to it |
| MapCodec.BodyDecodes | Editor/BeatHopEditor/Types/Map.cs:259-296 | The records Save writes decode, outside ss mode, to the stored lanes and times |
| MapCodec.SplitPrefixed | Editor/BeatHopEditor/Types/Map.cs:235 | Splitting id + comma-led records on `,` gives back the id and each record |
| MapCodec.ParseSaveRoundTrip | Editor/BeatHopEditor/Types/Map.cs:232-300 | Parse of the Save text gives back the id and every note in the same order, with the same time and the lane rounded to two places |
| MapCodec.SavedNotesReadBackShifted | Editor/BeatHopEditor/Types/Map.cs:287-288 | Saved with the export offset applied, every note reads back with its time shifted by exactly that offset |
| Documents.DropFirst | Editor/BeatHopEditor/Types/Map.cs:204 | Drops the first character, or gives the empty text when there is none |
| Documents.CacheItemsAt | Editor/BeatHopEditor/Types/Map.cs:116-136 | The cache record is exactly ten items: notes, points, bookmarks, tempo, zoom, file name (empty for none), sound id, time, divisor and export offset |
| Documents.CacheTextItems | Editor/BeatHopEditor/Types/Map.cs:135-144 | Splitting the joined record on the separator gives the ten items back |
| Documents.ParseInt32 | Editor/BeatHopEditor/Types/Map.cs:165 | A number is read only when it fits a 32-bit int |
| Documents.ReadEach | Editor/BeatHopEditor/Types/Map.cs:150-155 | A list reads only when every part reads, item by item |
| Documents.ReadItems | Editor/BeatHopEditor/Types/Map.cs:144-165 | Succeeds only with at least ten items. The file name is none exactly when item 5 is empty. The export offset fits 32 bits |
| Documents.NotesReadBack | Editor/BeatHopEditor/Types/Map.cs:196-205 | The notes item reads back as the notes with lanes rounded to two places |
| Documents.ListReadsBack | Editor/BeatHopEditor/Types/Map.cs:146-155 | A list item reads back whenever every element's text reads back and holds no comma or line feed |
| Documents.Reloaded | Editor/BeatHopEditor/Types/Map.cs:151-160 | A reloaded map differs from the written one only in rounded lanes and in an empty file name becoming none |
| Documents.CacheRoundTrip | Editor/BeatHopEditor/Types/Map.cs:116-172 | Reading the cache record of a map gives back the map, as reloaded |
| Documents.WideOffsetNotRead | Editor/BeatHopEditor/Types/Map.cs:165 | An export offset outside 32 bits is written but cannot be read back |
| Documents.MissingItemNotRead | Editor/BeatHopEditor/Types/Map.cs:144-165 | Fewer than ten items never read |
| Documents.Appended | Editor/BeatHopEditor/Types/Map.cs:150-165 | The loaded lists are the old lists followed by the read ones; the scalars are the read ones |
| Documents.JoinTexts | Editor/BeatHopEditor/Types/Map.cs:196-204 | The loop builds the list item: the joined texts without the leading comma |
| Documents.ReadNotes | Editor/BeatHopEditor/Types/Map.cs:150-151 | ok exactly when every part parses; the fresh notes carry the parsed values |
| Documents.ReadNoteParts | Editor/BeatHopEditor/Types/Map.cs:150-151 | The loop appends a fresh note per part that parses, carrying the parsed values, and stops exactly at the first part that does not |
| Documents.ReadPoints | Editor/BeatHopEditor/Types/Map.cs:152-153 | ok exactly when every part reads; the fresh points carry the read values |
| Documents.ReadMarks | Editor/BeatHopEditor/Types/Map.cs:154-155 | ok exactly when every part reads; the bookmarks are the read ones |
| Documents.Map.Save | Editor/BeatHopEditor/Types/Map.cs:88-114 | The map's stored state becomes the editor's state: lists (same note objects), scalars, history and index |
| Documents.Map.SaveLists | Editor/BeatHopEditor/Types/Map.cs:92-98 | The stored lists are the editor's lists |
| Documents.Map.SaveScalars | Editor/BeatHopEditor/Types/Map.cs:100-108 | The stored scalars are the editor's, the export offset truncated |
| Documents.Map.MakeCurrent | Editor/BeatHopEditor/Types/Map.cs:44-86 | The previous current map first saves the editor state; this map becomes current; the editor's state equals this map's state, including history and index. The time maximum comes from the audio only when loading audio. The selection flags are synced |
| Documents.Map.MakeCurrentThenSave | Editor/BeatHopEditor/Types/Map.cs:44-114 | Making a map current and saving it at once leaves its stored state as it was (when it was already current, it stores the editor state) |
| Documents.Map.Install | Editor/BeatHopEditor/Types/Map.cs:51-83 | The editor receives the map's lists, scalars, history and index |
| Documents.Map.InstallLists | Editor/BeatHopEditor/Types/Map.cs:51-57 | The editor's lists are the map's lists |
| Documents.Map.InstallScalars | Editor/BeatHopEditor/Types/Map.cs:59-76 | The editor's scalars are the map's |
| Documents.Map.Close | Editor/BeatHopEditor/Types/Map.cs:174-188 | Closes exactly when not asked to save or when saving succeeds; then the map leaves the list and no other map does |
| Documents.Map.ToString | Editor/BeatHopEditor/Types/Map.cs:116-136 | The text is the cache record of the map |
| Documents.Map.FromString | Editor/BeatHopEditor/Types/Map.cs:138-172 | Saves the editor state first. ok exactly when the record reads. On success the read lists are appended, the scalars are set and the history index is -1 |
| Documents.Map.Load | Editor/BeatHopEditor/Types/Map.cs:144-167 | ok exactly when the items read; then the lists are appended and the index is -1 |
| Documents.Map.LoadLists | Editor/BeatHopEditor/Types/Map.cs:146-155 | ok exactly when all three lists read; each read list is appended after the old one |
| Documents.Map.AppendNotes | Editor/BeatHopEditor/Types/Map.cs:150-151 | The parsed notes are appended as fresh notes |
| Documents.Map.AppendPoints | Editor/BeatHopEditor/Types/Map.cs:152-153 | The read points are appended as fresh points |
| Documents.Map.AppendMarks | Editor/BeatHopEditor/Types/Map.cs:154-155 | The read bookmarks are appended |
| Documents.Map.LoadScalars | Editor/BeatHopEditor/Types/Map.cs:157-165 | ok exactly when the five numbers read; the file name is none exactly when item 5 is empty |
| TimeOrder.ByTimeSortsStably | Editor/BeatHopEditor/MainWindow.cs:1456-1462 | Sorting notes by time gives an ascending permutation that keeps the order of equal times |
| TimeOrder.ByTimeKeepsOrdered | Editor/BeatHopEditor/MainWindow.cs:1456-1462 | Sorting an ordered list changes nothing |
| TimeOrder.PointsByTimeSortsStably | Editor/BeatHopEditor/MainWindow.cs:1464-1473 | Sorting timing points is a stable ascending permutation |
| TimeOrder.BookmarksByTimeSortsStably | Editor/BeatHopEditor/MainWindow.cs:1475-1484 | Sorting bookmarks is a stable ascending permutation |
| TimeOrder.AddThenRemove | Editor/BeatHopEditor/MainWindow.cs:324-332 | Adding new notes to an ordered list, sorting, then removing them and sorting, restores the list |
| TimeOrder.RemoveThenAdd | Editor/BeatHopEditor/MainWindow.cs:458-469 | Removing notes and adding them back gives a permutation of the old list |
| Sorting.SortSortsAndPermutes | Editor/BeatHopEditor/MainWindow.cs:1458 | Ordering by key gives a sorted permutation |
| Sorting.SortIsStable | Editor/BeatHopEditor/MainWindow.cs:1458 | Ordering by key keeps the relative order of equal keys |
| Editing.TempoFor | Editor/BeatHopEditor/MainWindow.cs:1444-1454 | Up to 0.9 the tempo is the value plus 0.1; above it rises at twice the rate from 1.0 |
| Editing.TempoForIncreasing | Editor/BeatHopEditor/MainWindow.cs:1444-1454 | The tempo is strictly increasing in the slider value |
| Editing.Editor.UpdateSelection | Editor/BeatHopEditor/MainWindow.cs:721-727 | Afterwards every note is selected exactly when it is in the selection list |
| Editing.Editor.SyncedAfterSort | Editor/BeatHopEditor/MainWindow.cs:1456-1462 | Sorting keeps the selection flags in sync with the selection list |
| Editing.Editor.SortNotes | Editor/BeatHopEditor/MainWindow.cs:1456-1462 | The notes become their stable sort by time |
| Editing.Editor.SortTimings | Editor/BeatHopEditor/MainWindow.cs:1464-1473 | The timing points become their stable sort by time |
| Editing.Editor.SortBookmarks | Editor/BeatHopEditor/MainWindow.cs:1475-1484 | The bookmarks become their stable sort by time |
| Editing.Editor.RemoveEach | Editor/BeatHopEditor/MainWindow.cs:465-466 | Removes the first occurrence of each given note, and nothing else |
| Editing.Editor.AddToNotes | Editor/BeatHopEditor/MainWindow.cs:330-331 | Adds the notes and sorts |
| Editing.Editor.RemoveFromNotes | Editor/BeatHopEditor/MainWindow.cs:326-327 | Removes the notes and sorts |
| Editing.Editor.PasteForward | Editor/BeatHopEditor/MainWindow.cs:434-441 | The paste redo: the pasted notes are added and become the whole selection, the point is deselected, flags synced |
| Editing.Editor.PasteBackward | Editor/BeatHopEditor/MainWindow.cs:424-432 | The paste undo: removes exactly the pasted notes and clears the selection, flags synced |
| Editing.Editor.SetPointTime | Editor/BeatHopEditor/GUI/GuiTrack.cs:714-723 | The point takes the time and the points are re-sorted |
| Editing.Editor.Apply | Editor/BeatHopEditor/Types/URAction.cs:8-19 | Runs a command's redo (forward) or undo: the notes, lanes, times, points and selection end as that command's definition says, and nothing else changes |
| Editing.Editor.ApplyListEdit | Editor/BeatHopEditor/MainWindow.cs:324-332 | Add, paste and cut commands add or remove exactly their notes and sort |
| Editing.Editor.ApplyAddOrCut | Editor/BeatHopEditor/MainWindow.cs:458-469 | Add and cut: redo/undo add or remove the captured notes and sort |
| Editing.Editor.ApplyPaste | Editor/BeatHopEditor/MainWindow.cs:423-442 | Paste: redo adds and selects, undo removes and clears the selection |
| Editing.Editor.ApplyFieldEdit | Editor/BeatHopEditor/GUI/GuiWindowEditor.cs:267-275 | Lane, time and point commands set the captured fields |
| Editing.Editor.ApplyLaneEdit | Editor/BeatHopEditor/GUI/GuiWindowEditor.cs:326-334 | Mirror maps X to 4 - X both ways; SetLanes puts back the before (undo) or after (redo) lanes |
| Editing.Editor.ApplyTimeEdit | Editor/BeatHopEditor/GUI/GuiTrack.cs:694-706 | MOVE NOTE sets the start (undo) or end (redo) times and sorts |
| Editing.Editor.ApplyPointEdit | Editor/BeatHopEditor/GUI/GuiTrack.cs:714-724 | MOVE POINT sets the start or end time and sorts the points |
| Editing.Editor.Record | Editor/BeatHopEditor/MainWindow.cs:324-332 | Drops the redo tail, appends the action, points at it and, when applying, runs its redo |
| Editing.Editor.Push | Editor/BeatHopEditor/GUI/GuiTrack.cs:694-706 | Recording with apply=false changes the history only |
| Editing.Editor.Undo | Editor/BeatHopEditor/MainWindow.cs:375-378 | Does nothing with nothing to undo; otherwise runs the current action's undo and steps the index back |
| Editing.Editor.Redo | Editor/BeatHopEditor/MainWindow.cs:380-383 | Does nothing at the end of the history; otherwise steps forward and runs that action's redo |
| Editing.Editor.RecordAdd | Editor/BeatHopEditor/MainWindow.cs:324-332 | Records an add and applies it: the notes are added and sorted; the selection, the points and every note's Selected flag unchanged |
| Editing.Editor.RecordPaste | Editor/BeatHopEditor/MainWindow.cs:423-442 | Records a paste and applies it: the pasted notes are added and selected, lanes and times kept |
| Editing.Editor.RecordCut | Editor/BeatHopEditor/MainWindow.cs:458-469 | Records a cut and applies it: the notes are removed and the rest sorted |
| Editing.Editor.ClearSelection | Editor/BeatHopEditor/MainWindow.cs:306-311 | Escape: nothing stays selected and no point is selected |
| Editing.Editor.SelectAll | Editor/BeatHopEditor/MainWindow.cs:356-361 | Every note becomes selected and the selection is the whole list |
| Editing.Editor.SetTempo | Editor/BeatHopEditor/MainWindow.cs:1444-1454 | The tempo follows the slider mapping |
| Editing.Editor.Advance | Editor/BeatHopEditor/MainWindow.cs:812-822 | With a positive BPM the time moves to the next (or previous) beat; otherwise it stays |
| Editing.Editor.AddNoteAtCursor | Editor/BeatHopEditor/MainWindow.cs:315-337 | A grid key adds a note on that lane at the closest beat (or the current time when there is none) and records ADD NOTE. The selection, the points and the Selected flags stay. With autoAdvance the current time moves one beat forward as `Advance` does when a tempo is in force, and stays otherwise |
| Editing.Editor.PlaceNote | Editor/BeatHopEditor/MainWindow.cs:319-332 | The placed note sits at the closest beat or the current time and is recorded and added; the selection, the points and the Selected flags stay |
| Editing.Editor.Paste | Editor/BeatHopEditor/MainWindow.cs:401-447 | Nothing happens when the clipboard is empty. Otherwise fresh notes keep their spacing, with the earliest at the current time, optionally scaled; they are recorded under the corrected label (`PASTE NOTE` for one note, see Findings), added and selected |
| Editing.Editor.Cut | Editor/BeatHopEditor/MainWindow.cs:449-480 | With a selection, records CUT NOTE(S), removes the selected notes and clears the selection; without one nothing changes |
| Editing.Editor.DeleteNotes | Editor/BeatHopEditor/MainWindow.cs:482-503 | With a selection, records DELETE NOTE(S), removes the selected notes and clears the selection; without one, no note changes |
| Editing.Editor.MirrorKey | Editor/BeatHopEditor/MainWindow.cs:523-538 | Records MIRROR over the selection, even an empty one, and mirrors every selected lane |
| Editing.Editor.CopyBookmarks | Editor/BeatHopEditor/MainWindow.cs:1351-1372 | The clipboard text is the bookmark lines, or nothing when there are no bookmarks |
| Editing.Editor.PasteBookmarks | Editor/BeatHopEditor/MainWindow.cs:1374-1397 | The bookmarks become the lines that read, or stay as they were when none reads |
| Editing.ReadPastedLine | Editor/BeatHopEditor/MainWindow.cs:1383-1392 | One line reads as its bookmark when the spec function reads it |
| Editing.ClipboardNotes | Editor/BeatHopEditor/MainWindow.cs:404-421 | Fresh notes moved so the earliest is at the base time with spacing kept, lanes scaled when asked |
| Bookmarks.CopyText | Editor/BeatHopEditor/MainWindow.cs:1351-1368 | Nothing is copied exactly when there are no bookmarks |
| Bookmarks.ReadTimes | Editor/BeatHopEditor/MainWindow.cs:1387-1392 | The start time is the integer before the first `-` |
| Bookmarks.ReadLine | Editor/BeatHopEditor/MainWindow.cs:1383-1392 | A line reads only when it has exactly two ` ~ ` parts; the text is the second part and the time the first number |
| Bookmarks.HeadReadsBack | Editor/BeatHopEditor/MainWindow.cs:1359-1362 | A single-time head has no `-`; a range head splits into start and end |
| Bookmarks.SinglePointHasNoRange | Editor/BeatHopEditor/MainWindow.cs:1359-1362 | A bookmark with equal start and end is written without `-` |
| Bookmarks.LineReadsBack | Editor/BeatHopEditor/MainWindow.cs:1359-1392 | A bookmark with non-negative times and a text free of ` ~ ` and line feeds reads back from its line |
| Bookmarks.ReadAllLines | Editor/BeatHopEditor/MainWindow.cs:1381-1393 | Reading the lines of such bookmarks gives them back |
| Bookmarks.PasteOfCopy | Editor/BeatHopEditor/MainWindow.cs:1351-1397 | Pasting the copied text reproduces the bookmarks |
| Bookmarks.GarbageKeepsBookmarks | Editor/BeatHopEditor/MainWindow.cs:1395-1396 | When no line reads, the old bookmarks are kept |
| Legacy.LegacyBookmark | Editor/BeatHopEditor/MainWindow.cs:1224-1229 | The text is field 0; a two-field entry has equal start and end |
| Legacy.LoadPoints | Editor/BeatHopEditor/MainWindow.cs:1199-1217 | Appends the points that read and sorts; reports whether an entry had no `\|` |
| Legacy.AddPoints | Editor/BeatHopEditor/MainWindow.cs:1202-1213 | The loop appends exactly the points that read, as fresh points |
| Legacy.AddPoint | Editor/BeatHopEditor/MainWindow.cs:1204-1212 | One entry: an entry without `\|` counts as old format at time 0 |
| Legacy.AppendPoint | Editor/BeatHopEditor/MainWindow.cs:1212 | Appends one fresh point with the given BPM and time |
| Legacy.LoadBookmarks | Editor/BeatHopEditor/MainWindow.cs:1219-1234 | Appends the entries that read and sorts the bookmarks |
| Legacy.LoadOffset | Editor/BeatHopEditor/MainWindow.cs:1236-1254 | The old format moves the first point; otherwise the notes are rebased on the new offset |
| Legacy.MoveFirstPoint | Editor/BeatHopEditor/MainWindow.cs:1237-1241 | The first point takes the read time when there is a point and the value reads |
| Legacy.Rebase | Editor/BeatHopEditor/MainWindow.cs:1242-1252 | Notes are shifted by the old offset, the offset is replaced when it reads, and the notes are shifted back by the new one |
| Legacy.ShiftAll | Editor/BeatHopEditor/MainWindow.cs:1244-1251 | Every note's time moves by out, then by in |
| Legacy.LoadLine | Editor/BeatHopEditor/MainWindow.cs:1195-1267 | One line changes the editor as the line function says, and reports the old-format flag and failure |
| Legacy.LoadLegacyProperties | Editor/BeatHopEditor/MainWindow.cs:1188-1269 | The editor ends as the fold of all lines says; ok is false when a line throws |
| Legacy.FailedLoadStops | Editor/BeatHopEditor/MainWindow.cs:1193-1197 | Once a line throws, the later lines change nothing |
| Legacy.OldFormatStartsAtZero | Editor/BeatHopEditor/MainWindow.cs:1205-1211 | A BPM entry without `\|` is old format and gives a point at time 0 |
| Legacy.OldVersionFromEarlierBpm | Editor/BeatHopEditor/MainWindow.cs:1191-1208 | The old-format flag is set exactly when some BPM line has an entry without `\|` |
| Legacy.OffsetKeepsFileTimes | Editor/BeatHopEditor/MainWindow.cs:1242-1252 | Rebasing keeps each note's time plus offset; when the value does not parse nothing changes |
| Legacy.OldOffsetMovesFirstPoint | Editor/BeatHopEditor/MainWindow.cs:1239-1240 | In the old format, Offset sets only the first point's time |
| Legacy.DivisorStoredMinusOne | Editor/BeatHopEditor/MainWindow.cs:1262-1264 | The divisor is stored minus one |
| Legacy.KeyWithoutValueThrows | Editor/BeatHopEditor/MainWindow.cs:1195-1200 | A known key without `=` throws |
| Timing.LastApplying | Editor/BeatHopEditor/MainWindow.cs:797-810 | The index is the last point that applies at the time, or -1 when none does |
| Timing.GetCurrentBpm | Editor/BeatHopEditor/MainWindow.cs:797-810 | The loop returns the last point with time before t (or at t when not dragging), else BPM 0 at 0 |
| Timing.CurrentBpmIsLastApplying | Editor/BeatHopEditor/MainWindow.cs:797-810 | The current BPM is the default point or a point that applies; when none applies it is the default |
| Timing.Interval | Editor/BeatHopEditor/MainWindow.cs:751 | The beat interval is positive |
| Timing.Snap | Editor/BeatHopEditor/MainWindow.cs:752-754 | The snapped time is a grid line within half an interval of the time |
| Timing.ClosestBeat | Editor/BeatHopEditor/MainWindow.cs:744-758 | -1 when the BPM is not positive; never above the maximum |
| Timing.SnappedBeatNear | Editor/BeatHopEditor/MainWindow.cs:752-754 | The beat is within half an interval (plus rounding) of the time and within 0.5 of a grid line |
| Timing.ClosestBeatNear | Editor/BeatHopEditor/MainWindow.cs:744-758 | Under the maximum, the closest beat is the snapped beat, within half an interval of the time |
| Timing.GetClosestBeat | Editor/BeatHopEditor/MainWindow.cs:744-758 | The method computes the closest beat |
| Timing.ClosestBeatScroll | Editor/BeatHopEditor/MainWindow.cs:760-795 | -1 or a time in [0, max]; -1 when the BPM at the closest beat is 0 |
| Timing.GetClosestBeatScroll | Editor/BeatHopEditor/MainWindow.cs:760-795 | The loop computes the scroll result |
| Timing.ScrollBody | Editor/BeatHopEditor/MainWindow.cs:768-789 | One iteration moves back or forward as the spec says |
| Timing.ScrollBack | Editor/BeatHopEditor/MainWindow.cs:773-777 | Backward step |
| Timing.ScrollForward | Editor/BeatHopEditor/MainWindow.cs:781-785 | Forward step, stopping at the next timing point |
| Timing.ClosestIndex | Editor/BeatHopEditor/MainWindow.cs:729-742 | The winner is no farther than the -1 sentinel or any note, and strictly nearer than every earlier note |
| Timing.GetClosestNote | Editor/BeatHopEditor/MainWindow.cs:729-742 | The loop computes the closest note as written |
| Timing.ClosestNoteIsClosest | Editor/BeatHopEditor/MainWindow.cs:729-742 | The result is -1 or some note's time, no farther than any note, and the earliest among ties |
| Timing.ClosestNoteMissesNote | Editor/BeatHopEditor/MainWindow.cs:729-742 | With one note at 5 and the time 0, the result is -1, not the note |
| Timing.NearestIndexIsNearest | Editor/BeatHopEditor/MainWindow.cs:729-742 | The nearest index is no farther than any note and earliest among ties |
| Timing.NearestNote | Editor/BeatHopEditor/MainWindow.cs:729-742 | -1 only for no notes; otherwise a note time no farther than any other |
| Timing.GetNearestNote | Editor/BeatHopEditor/MainWindow.cs:729-742 | The loop computes the nearest note |
| Timing.NearestNoteFindsNote | Editor/BeatHopEditor/MainWindow.cs:729-742 | With one note at 5 and time 0 the corrected search finds 5 |
| Edits.Mirrored | Editor/BeatHopEditor/GUI/GuiWindowEditor.cs:269-274 | X and its mirror add to 4, and [0, 4] maps onto itself |
| Edits.MirrorTwice | Editor/BeatHopEditor/GUI/GuiWindowEditor.cs:267-275 | Mirroring twice restores every lane |
| Edits.Scaled | Editor/BeatHopEditor/GUI/GuiWindowEditor.cs:315-323 | The scaled lane lies in [0, 4] |
| Edits.ScaleByHundred | Editor/BeatHopEditor/GUI/GuiWindowEditor.cs:315-323 | Scaling by 100% keeps every lane in range |
| Edits.ScaleMirror | Editor/BeatHopEditor/GUI/GuiWindowEditor.cs:267-334 | Scaling and mirroring commute |
| Edits.LaneShift | Editor/BeatHopEditor/GUI/GuiGrid.cs:509-510 | The clamped shift keeps the lane range inside [0, 4], and equals the wanted shift when that already fits |
| Edits.DragStaysInLanes | Editor/BeatHopEditor/GUI/GuiGrid.cs:497-517 | When the selection and the dragged note start in [0, 4], DragShift keeps every one of them in [0, 4] |
| Edits.DraggedTime | Editor/BeatHopEditor/GUI/GuiTrack.cs:634-635 | The dragged time lies in [0, max] and is start - offset when that fits |
| Edits.PlacedTime | Editor/BeatHopEditor/GUI/GuiGrid.cs:473 | The placed time is the grid time when non-negative, else the current time |
| Edits.MirrorLanes | Editor/BeatHopEditor/GUI/GuiWindowEditor.cs:269-274 | Every note's lane becomes 4 - X; nothing else changes |
| Edits.AssignLanes | Editor/BeatHopEditor/GUI/GuiWindowEditor.cs:328-333 | Note i takes lane i; nothing else changes |
| Edits.AssignTimes | Editor/BeatHopEditor/GUI/GuiTrack.cs:696-703 | Note i takes time i; nothing else changes |
| Edits.ScaledLanes | Editor/BeatHopEditor/GUI/GuiWindowEditor.cs:317-324 | The scaled lanes, one per note |
| Edits.CurrentLanes | Editor/BeatHopEditor/GUI/GuiWindowEditor.cs:320 | The current lanes, one per note |
| Edits.CapturedLanes | Editor/BeatHopEditor/GUI/GuiGrid.cs:536-542 | Before is each lane minus posDiff and after is each lane |
| Edits.CapturedTimes | Editor/BeatHopEditor/GUI/GuiTrack.cs:688-692 | The start and end lists are the drag starts and times |
| Edits.MarkDragStart | Editor/BeatHopEditor/GUI/GuiTrack.cs:576-577 | Every note's drag start becomes its time |
| Edits.DragTimes | Editor/BeatHopEditor/GUI/GuiTrack.cs:634-635 | Every note's time becomes its clamped dragged time, with one offset for all |
| Edits.MinLane | Editor/BeatHopEditor/GUI/GuiGrid.cs:500-507 | The lowest lane is at most the dragged lane and every selected lane, and is one of them |
| Edits.MaxLane | Editor/BeatHopEditor/GUI/GuiGrid.cs:500-507 | The highest lane is at least the dragged lane and every selected lane, and is one of them |
| Edits.LaneRange | Editor/BeatHopEditor/GUI/GuiGrid.cs:500-507 | The loop finds exactly MinLane and MaxLane of the selection and the dragged lane |
| Edits.DragShiftOf | Editor/BeatHopEditor/GUI/GuiGrid.cs:497-510 | The shift computed is exactly DragShift: LaneShift of the mouse offset over the lane range |
| Edits.ShiftNotes | Editor/BeatHopEditor/GUI/GuiGrid.cs:512-517 | Every lane moves by the shift; times move only when asked |
| Edits.MinOfIsMin | Editor/BeatHopEditor/MainWindow.cs:408 | The minimum is attained and below every time |
| Edits.PastedTimes | Editor/BeatHopEditor/MainWindow.cs:408-410 | Each time moves so the earliest lands on the base |
| Edits.PastedTimesSpacing | Editor/BeatHopEditor/MainWindow.cs:408-410 | The earliest pasted time is the base and every pairwise spacing is kept |
| Edits.EarliestTime | Editor/BeatHopEditor/MainWindow.cs:408 | The loop finds the earliest time |
| Edits.MoveTimes | Editor/BeatHopEditor/MainWindow.cs:410 | Every time moves by delta |
| Edits.ShiftToTime | Editor/BeatHopEditor/MainWindow.cs:408-410 | The times become the pasted times |
| Edits.ScaleLanes | Editor/BeatHopEditor/MainWindow.cs:418-419 | Every lane becomes its scaled value |
| Edits.NotesAt | Editor/BeatHopEditor/GUI/GuiWindowEditor.cs:285-288 | Distinct fresh notes with the given lanes and truncated times |
| Edits.NotesOf | Editor/BeatHopEditor/MainWindow.cs:404 | Distinct fresh notes with the given values |
| Selection.RangeFromSpec | Editor/BeatHopEditor/GUI/GuiTrack.cs:559-561 | Appends, without duplicates, exactly the notes whose time is in range |
| Selection.RangeSelectionSpec | Editor/BeatHopEditor/GUI/GuiTrack.cs:550-562 | Shift-click: the first selected note, then every note between it and the clicked one, with no duplicates |
| Selection.ShiftSelect | Editor/BeatHopEditor/GUI/GuiTrack.cs:550-562 | The loop computes the range selection |
| Selection.CtrlToggleSpec | Editor/BeatHopEditor/GUI/GuiTrack.cs:563-569 | Ctrl-click flips the clicked note's membership and keeps every other |
| Selection.PlainClickSpec | Editor/BeatHopEditor/GUI/GuiTrack.cs:570-571 | A plain click on an unselected note selects only it; on a selected note keeps the selection |
| Selection.ClickSelectionSpec | Editor/BeatHopEditor/GUI/GuiTrack.cs:548-574 | A click never selects a note twice, and without ctrl the clicked note ends selected |
| Selection.ClickSelectionFrom | Editor/BeatHopEditor/GUI/GuiTrack.cs:548-574 | A click selects only already selected notes, notes of the list and the clicked note |
| Selection.ClickSelect | Editor/BeatHopEditor/GUI/GuiTrack.cs:548-574 | The method computes the click selection |
| Selection.GridClickSelectionAsWritten | Editor/BeatHopEditor/GUI/GuiGrid.cs:430-456 | Fails exactly for a shift-click with nothing selected; otherwise the track's rules |
| Selection.GridShiftClickOnEmptySelection | Editor/BeatHopEditor/GUI/GuiGrid.cs:432-436 | A shift-click on an empty selection fails as written, while the guarded rule selects the clicked note |
| GridInput.Grid.AddNoteAt | Editor/BeatHopEditor/GUI/GuiGrid.cs:404-422 | A fresh note at the grid position is recorded and added; advance only when the time is the current time |
| GridInput.Grid.Place | Editor/BeatHopEditor/GUI/GuiGrid.cs:407-417 | Records ADD NOTE and adds the note |
| GridInput.Grid.PickUp | Editor/BeatHopEditor/GUI/GuiGrid.cs:424-456 | Starts dragging the clicked note with the corrected click selection (shift guarded by a non-empty selection, see Findings); lanes and times unchanged |
| GridInput.Grid.AdvanceAt | Editor/BeatHopEditor/GUI/GuiGrid.cs:419-420 | The time stays unless autoAdvance is on and the placed time is the current time; then, with a tempo in force, it becomes the next beat as ClosestBeatScroll gives it |
| GridInput.Grid.OnMouseClick | Editor/BeatHopEditor/GUI/GuiGrid.cs:390-459 | Nothing over a track point; otherwise drags when hovering, placing a note or picking one up |
| Edits.GridDrag | Editor/BeatHopEditor/GUI/GuiGrid.cs:497-517 | Every selected note moves by exactly DragShift of the old lanes (so by the mouse offset when that fits, and lanes in [0, 4] stay in [0, 4]) and, when the grid time is positive, by the truncated grid time minus the dragged note's time |
| GridInput.Grid.OnMouseMove | Editor/BeatHopEditor/GUI/GuiGrid.cs:461-523 | Drag-placing adds a note only when the position changed. Dragging, when the position changed, moves every selected note by DragShift and, above time 0, by the grid time offset; lanes in [0, 4] stay in [0, 4]; nothing moves otherwise |
| GridInput.Grid.OnMouseUp | Editor/BeatHopEditor/GUI/GuiGrid.cs:525-558 | Records MOVE NOTE(S) (history only) when the lane moved, with before = after - posDiff; always resets the drag state |
| TrackInput.SnapThreshold | Editor/BeatHopEditor/GUI/GuiTrack.cs:622-627 | The snap width lies in [1, 12] and follows the clamp formula for positive BPM and divisor |
| TrackInput.NoteSnapLandsOnBeat | Editor/BeatHopEditor/GUI/GuiTrack.cs:618-635 | Within the snap width, the dragged note lands on the closest beat |
| TrackInput.NoteDeadZone | Editor/BeatHopEditor/GUI/GuiTrack.cs:618-619 | Within 5 pixels without BPM, the note does not move |
| TrackInput.DragKeepsSpacing | Editor/BeatHopEditor/GUI/GuiTrack.cs:634-635 | Away from the clamp, dragging keeps the spacing of the notes |
| TrackInput.DraggedPointTime | Editor/BeatHopEditor/GUI/GuiTrack.cs:658 | A non-negative dragged point time stays within the maximum |
| TrackInput.PointSnapsToZero | Editor/BeatHopEditor/GUI/GuiTrack.cs:655-656 | Near time 0 the point snaps to 0 |
| TrackInput.PointLandsOnTarget | Editor/BeatHopEditor/GUI/GuiTrack.cs:641-658 | Within the snap width the point lands on the nearer of beat and note, the note found by the corrected nearest-note search (see Findings) |
| TrackInput.ScrubTime | Editor/BeatHopEditor/GUI/GuiTrack.cs:664-671 | The scrubbed time lies in [0, max] |
| TrackInput.ScrubSnapsToBeat | Editor/BeatHopEditor/GUI/GuiTrack.cs:664-671 | With a positive BPM the scrubbed time is the snapped beat |
| TrackInput.ReleaseAction | Editor/BeatHopEditor/GUI/GuiTrack.cs:682-727 | Nothing is recorded exactly when neither the note nor the point moved; MOVE NOTE(S) captures the starts and ends of the selection; MOVE POINT captures the point's start and end |
| TrackInput.Track.SelectForDrag | Editor/BeatHopEditor/GUI/GuiTrack.cs:548-577 | The selection follows the click rules, flags are synced, and every selected note's drag start is its time |
| TrackInput.Track.Grab | Editor/BeatHopEditor/GUI/GuiTrack.cs:541-596 | Grabs the hovered note, else the hovered point (selected, drag start = time), else the track |
| TrackInput.Track.RightClick | Editor/BeatHopEditor/GUI/GuiTrack.cs:529-536 | A right click first releases the drag and then sets the right-drag flag |
| TrackInput.Track.OnMouseClick | Editor/BeatHopEditor/GUI/GuiTrack.cs:527-600 | Pauses on a left click while playing, grabs or releases, and remembers the drag start |
| TrackInput.Track.DragNotes | Editor/BeatHopEditor/GUI/GuiTrack.cs:616-637 | Every selected note moves to its clamped dragged time with one offset, then the notes are sorted |
| TrackInput.Track.NoteOffset | Editor/BeatHopEditor/GUI/GuiTrack.cs:616-632 | Computes the note drag offset |
| TrackInput.Track.DragPoint | Editor/BeatHopEditor/GUI/GuiTrack.cs:639-660 | The point takes its dragged time and the points are sorted |
| TrackInput.Track.PointOffset | Editor/BeatHopEditor/GUI/GuiTrack.cs:641-656 | The loop computes the point drag offset of PointDragOffset, with the corrected nearest-note search |
| TrackInput.Track.Scrub | Editor/BeatHopEditor/GUI/GuiTrack.cs:662-672 | The current time becomes the scrub time: the dragged time, on the closest beat when a tempo is in force, within [0, max] |
| TrackInput.Track.OnMouseMove | Editor/BeatHopEditor/GUI/GuiTrack.cs:602-674 | Drags the notes, else the point, else scrubs the time; nothing without a drag |
| TrackInput.Track.OnMouseUp | Editor/BeatHopEditor/GUI/GuiTrack.cs:676-737 | Records the release action (history only), clears the drag state, and replays when asked |
| TrackInput.ReleaseThenUndo | Editor/BeatHopEditor/GUI/GuiTrack.cs:694-699 | Undoing a recorded MOVE NOTE restores every note's drag start time |
| TrackInput.ReleaseUndoRedo | Editor/BeatHopEditor/GUI/GuiTrack.cs:694-706 | Undo then redo of MOVE NOTE restores every note's dragged time |
| EditorPanel.Toggled | Editor/BeatHopEditor/GUI/GuiWindowEditor.cs:228-238 | The section opens when not open, else closes to "" |
| EditorPanel.ToggleTwice | Editor/BeatHopEditor/GUI/GuiWindowEditor.cs:228-238 | Toggling twice restores the nav state |
| EditorPanel.SectionFor | Editor/BeatHopEditor/GUI/GuiWindowEditor.cs:228-348 | Buttons 3, 4, 8 and 19 name the four sections |
| EditorPanel.NavText | Editor/BeatHopEditor/GUI/GuiWindowEditor.cs:394-397 | The nav label ends in `<` exactly when its section is open |
| EditorPanel.EditorWindow.UpdateNav | Editor/BeatHopEditor/GUI/GuiWindowEditor.cs:387-437 | Each group is visible exactly when its section is open |
| EditorPanel.EditorWindow.ToggleNav | Editor/BeatHopEditor/GUI/GuiWindowEditor.cs:228-260 | A nav button toggles its section and updates the groups; other ids change nothing |
| EditorPanel.EditorWindow.UseCurrentMs | Editor/BeatHopEditor/GUI/GuiWindowEditor.cs:240-244 | The export offset becomes the current time |
| EditorPanel.EditorWindow.ScaleSelection | Editor/BeatHopEditor/GUI/GuiWindowEditor.cs:310-337 | No record without a number or selection; else SCALE records old and clamped new lanes and applies them |
| EditorPanel.EditorWindow.ScaleThenUndo | Editor/BeatHopEditor/GUI/GuiWindowEditor.cs:326-334 | Undoing a SCALE restores every exact old lane |
| EditorPanel.LanesOf | Editor/BeatHopEditor/GUI/GuiWindowEditor.cs:320 | The old lanes |
| EditorPanel.ScaledOf | Editor/BeatHopEditor/GUI/GuiWindowEditor.cs:321-323 | The scaled lanes, each in [0, 4] |
| EditorPanel.MirrorSelection | Editor/BeatHopEditor/GUI/GuiWindowEditor.cs:262-278 | Records MIRROR only with a selection, and mirrors every selected lane |
| EditorPanel.MirrorThenUndo | Editor/BeatHopEditor/GUI/GuiWindowEditor.cs:267-275 | Undoing a MIRROR restores every lane |
| EditorPanel.TweenSelection | Editor/BeatHopEditor/GUI/GuiWindowEditor.cs:280-306 | With a result, fresh notes are built, the selection cleared, TWEEN recorded and the notes added |
| OptionPicker.IndexOf | Editor/BeatHopEditor/GUI/GuiButtonList.cs:22 | The first index of the value, or -1 exactly when absent |
| OptionPicker.NextValue | Editor/BeatHopEditor/GUI/GuiButtonList.cs:22-25 | None exactly for an empty list (the modulo by zero); else a member, and the first when current is absent |
| OptionPicker.NextOfPosition | Editor/BeatHopEditor/GUI/GuiButtonList.cs:25 | From position i the next value is at (i + 1) mod n |
| OptionPicker.ClickedFrom | Editor/BeatHopEditor/GUI/GuiButtonList.cs:25 | k clicks from position i give position (i + k) mod n |
| OptionPicker.FullCycle | Editor/BeatHopEditor/GUI/GuiButtonList.cs:25 | n clicks return to the starting value |
| OptionPicker.ButtonList.constructor | Editor/BeatHopEditor/GUI/GuiButtonList.cs:11-15 | The text is the current value upper-cased |
| OptionPicker.ButtonList.OnMouseClick | Editor/BeatHopEditor/GUI/GuiButtonList.cs:17-31 | The value becomes the next possible value and the text its upper case; an empty list is an error |
| MapMenu.SlotLabelMarksUnsaved | Editor/BeatHopEditor/GUI/GuiWindowMenu.cs:186 | The label ends in the file name and starts with `[!] ` exactly when unsaved |
| MapMenu.MaxOffset | Editor/BeatHopEditor/GUI/GuiWindowMenu.cs:173 | The largest offset is non-negative and shows the last map in the last slot |
| MapMenu.ClampedOffset | Editor/BeatHopEditor/GUI/GuiWindowMenu.cs:173 | The clamp lies in [0, max(0, count - 5)] and keeps an offset already in range |
| MapMenu.OffsetShowing | Editor/BeatHopEditor/GUI/GuiWindowMenu.cs:173-181 | Every map is shown by some allowed offset |
| MapMenu.ScrollStepsByOne | Editor/BeatHopEditor/GUI/GuiWindowMenu.cs:321-329 | A scroll moves by exactly one inside the range and stops at its ends |
| MapMenu.ScrollUpDown | Editor/BeatHopEditor/GUI/GuiWindowMenu.cs:321-329 | Up then down returns to the same offset |
| MapMenu.RequestFor | Editor/BeatHopEditor/GUI/GuiWindowMenu.cs:287-315 | Buttons 80+k and 90+k open or close map k + offset, and only in range |
| MapMenu.Menu.LaySlots | Editor/BeatHopEditor/GUI/GuiWindowMenu.cs:178-191 | Slot i is visible exactly when map i + offset exists, and then shows and caches its label |
| MapMenu.Menu.AssembleMapList | Editor/BeatHopEditor/GUI/GuiWindowMenu.cs:169-192 | Clamps the offset, shows each arrow exactly when a map is hidden on its side, and lays out the slots |
| MapMenu.Menu.ScrollMaps | Editor/BeatHopEditor/GUI/GuiWindowMenu.cs:321-329 | Steps the offset as the scroll rule says and reassembles |
| MapMenu.Menu.OnButtonClicked | Editor/BeatHopEditor/GUI/GuiWindowMenu.cs:257-315 | The arrows scroll by one when possible and re-lay the menu; an open button asks for its map and leaves the menu; a close button asks to close its map and re-lays the menu over the list left after the close |
| MapMenu.CloseReassemblesPage | Editor/BeatHopEditor/GUI/GuiWindowMenu.cs:173-176 | After a close leaves exactly five maps, the re-laid menu is back at offset 0 with both arrows hidden |
| MapMenu.OpenTargetsShownMap | Editor/BeatHopEditor/GUI/GuiWindowMenu.cs:287-298 | An open button opens the very map its slot shows |
| MapMenu.CloseOnlyShownSlots | Editor/BeatHopEditor/GUI/GuiWindowMenu.cs:302-313 | A close button targets a map exactly when its slot is visible |
| Keybinds.Modifiers | Editor/BeatHopEditor/GUI/GuiWindowKeybinds.cs:196-203 | Lists each set modifier and only those |
| Keybinds.CAS | Editor/BeatHopEditor/GUI/GuiWindowKeybinds.cs:194-206 | Empty exactly when no modifier is set |
| Keybinds.CASSingle | Editor/BeatHopEditor/GUI/GuiWindowKeybinds.cs:194-206 | One modifier gives its own name |
| Keybinds.CASAll | Editor/BeatHopEditor/GUI/GuiWindowKeybinds.cs:194-206 | All three give `CTRL + ALT + SHIFT` in that order |
| Keybinds.CASSplits | Editor/BeatHopEditor/GUI/GuiWindowKeybinds.cs:205 | Splitting the text on ` + ` gives the set modifiers in order |
| Keybinds.CASDeterminesModifiers | Editor/BeatHopEditor/GUI/GuiWindowKeybinds.cs:194-206 | Equal texts mean equal modifiers |
| Keybinds.ResetFor | Editor/BeatHopEditor/GUI/GuiWindowKeybinds.cs:139-191 | Only buttons 1, 3-6 and 90-94 reset anything; none sets alt or the OpenDirectory bind |
| Keybinds.GridDefaults | Editor/BeatHopEditor/GUI/GuiWindowKeybinds.cs:169-188 | The grid keys reset to Q, W, E, R, T, all different |
| Keybinds.KeybindsWindow.OnButtonClicked | Editor/BeatHopEditor/GUI/GuiWindowKeybinds.cs:139-191 | A reset writes exactly its bind (or grid key) and its text box |
| Keybinds.OpenDirectoryResetDoesNothing | Editor/BeatHopEditor/GUI/GuiWindowKeybinds.cs:139-191 | Button 10 has no case and resets nothing |

## Left out

- Rendering, layout and the float geometry of the track and grid are not modelled. Screen positions come in as inputs: the grid position from `PointToGridSpace`, the cursor time and the cell step of the track. The cell step is required to be positive.
- File I/O, dialogs, the network, the autosave timer and the JSON properties format are not modelled. `IsSaved` comes in as a saved flag on each menu entry, and `SaveMap` as a success flag for `Map.Close`.
- The music player, clipboard, toasts and message boxes are not modelled. Pause and play are out-flags; clipboard contents are inputs and outputs.
- `FontRenderer.TrimText` is a function parameter `trim`. The SCALE label's number formatting is a parameter `number`. The cache record's number and point or bookmark text forms are parameters, because `TimingPoint` and `Bookmark` are not part of this model.
- `TweenSelected` is not modelled, because it is trigonometric easing. Its result comes in as an input list.
- Pattern binding and creation are not modelled: the written and read formats disagree.
- Floating point is idealised as reals: single-precision rounding and 64-bit overflow are not modelled. An infinite interval cast to `long` is the parameter `infStep`.
- `UndoRedoManager` is not part of this model. The history is an `(actions, index)` pair with the linear semantics of its call sites. Commands are records read by an interpreter, not closures.
- Editing.Editor.Apply, Editing.Editor.Record: the interpreter needs every command to capture each note once (`WellFormed`). Callers therefore require a selection without repeats, which the editor always keeps but the source never checks.
- Editing.Editor.DeleteNotes: the DELETE POINT branch is not modelled. With no note selected and a point selected, the source records and applies a point deletion; the model changes nothing there.
- `TimingsWindow.ResetList` and `Timeline.GenerateOffsets` are not modelled; they only refresh views.
- The menu's `MakeCurrent` / `Close` calls are returned as a `MapRequest`; `Documents.Map.MakeCurrent` and `Documents.Map.Close` model what they do.
- TrackInput.ReleaseUndoRedo: it does not state the note order after redo. With equal times, sorting after redo need not give the order from before the undo.
- Documents.Map.MakeCurrent: the shared context holds the same `Note` objects as the map, not copies. This follows the code (`ToList()` copies only the list), not a plain structural copy.
- GridInput.Grid.AddNoteAt: when it advances, the new current time is not stated; only that the time stays put when there is no advance. `Editing.Editor.Advance` and `GridInput.Grid.AdvanceAt` state the advanced time.
- Documents.Map.Load: it does not state that the loaded notes and points are new objects. That is stated for `Documents.Map.AppendNotes` and `Documents.Map.AppendPoints`, which do the appending.
- Editing.Editor.Paste: models the corrected label (`PASTE NOTE` for one note), not the `PASTE NOTES` that MainWindow.cs:423 records; the as-written label is `Commands.PasteLabelAsWritten` (see Findings).
- TrackInput.PointLandsOnTarget: its snap target comes from the corrected nearest-note search `Timing.NearestNote`, not the sentinel search `Timing.ClosestNote` that GuiTrack.cs:649 calls; with a point at 20 ms and one note at 50 ms the code as written offers no note, the model offers 50.
- TrackInput.PointSnapTarget, TrackInput.Track.PointOffset, TrackInput.Track.DragPoint, TrackInput.Track.OnMouseMove: the point drag uses the same corrected nearest-note search (see Findings).
- GridInput.Grid.PickUp, GridInput.Grid.OnMouseClick: the shift rule is guarded by a non-empty selection; where GuiGrid.cs:432-434 throws on a shift-click with nothing selected, the model selects the clicked note. The as-written rule is `Selection.GridClickSelectionAsWritten` (see Findings).
- Text.ToUpper, Text.FormatHundredths: two .NET string behaviours are not modelled. Upper-casing maps only the ASCII letters `a`-`z`, where .NET's culture-aware ToUpper also maps other letters (`é` to `É`). A lane that rounds to zero from below is printed `0`, where .NET prints `-0`. Neither arises for the ASCII setting values and lanes in [0, 4].
- Text.ParseDecimal: reads only an optional sign and digits with at most one `.`, with `.` as the decimal separator. `float.Parse` and `float.TryParse` also accept exponents (`1e0`), `Infinity`, `NaN` and thousands separators. The calls that pass no culture (MainWindow.cs:414, 1211, 1263; GuiWindowEditor.cs:313) also follow the current culture's separators. So `Notes.ParseNoteText`, `MapCodec.Parse`, `Legacy.AddPoint`, `Legacy.LoadLegacyProperties` and `EditorPanel.EditorWindow.ScaleSelection` reject such texts (the note `1e0|0|5`, say), where the program reads them.
- Timing.Interval and every member that requires `beatDivisor > -1.0`: `Timing.ClosestBeat`, `Timing.GetClosestBeat`, `Timing.ClosestBeatScroll`, `Timing.GetClosestBeatScroll`, `Editing.Editor.Advance`, `Editing.Editor.AddNoteAtCursor`, the handlers of `GridInput.Grid` and `TrackInput.Track`, and the track's snap functions. The model assumes the divisor stays above -1. Only the mouse wheel and the slider clamp it (MainWindow.cs:590-593). A legacy `Divisor=0` stores -1 (`Legacy.DivisorStoredMinusOne`), and the cache and properties loaders store any value. At -1 the source's interval is infinite, and below -1 it is negative. The beat snapping on such a divisor is not modelled.
- Editing.ClipboardNotes, Editing.Editor.Paste: the clipboard's notes are modelled as values from which fresh notes are built. The source writes the times of the objects `Clipboard.GetData()` returns (MainWindow.cs:404-410). The Clipboard class is not part of this model, so the model assumes those objects belong to no list. If it returned stored objects, a second paste would move the notes of the first.
- Undo/redo replay over arbitrary sequences of pushes is stated only for the MOVE NOTE, MIRROR and SCALE partners, not as one general lemma.

## Findings

| source | as written | input that shows it | evidently intended | confidence | as-written member | corrected member |
|---|---|---|---|---|---|---|
| Editor/BeatHopEditor/MainWindow.cs:729-742 | The search starts from the sentinel -1 and keeps it unless a note is strictly nearer than time -1 | One note at 5 ms, cursor at 0 ms: the result is -1 | The nearest note's time, -1 only when there are no notes | not executed | Timing.ClosestNoteMissesNote | Timing.NearestNoteFindsNote |
| Editor/BeatHopEditor/GUI/GuiGrid.cs:432-436 | Shift-click reads `selected[0]` without checking the count | Shift-click on a note with nothing selected: index out of range | Guard on a non-empty selection as the track does (GuiTrack.cs:550) | not executed | Selection.GridShiftClickOnEmptySelection | Selection.ClickSelectionSpec |
| Editor/BeatHopEditor/MainWindow.cs:423 | The plural test is `Count > 0` inside a branch taken only when `Count > 0` | Paste one note: the label reads `PASTE NOTES` | Plural only for several notes, like CUT, DELETE and MOVE | not executed | Commands.SinglePasteLabel | Commands.CountLabel |
