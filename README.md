# Deck media exporter, modelled in Dafny

This project models the core of a flashcard add-on. The core exports, to a
folder, the media files that a deck's notes reference. It also models the
"All"/items check box list of the add-on's export dialog.

- `optional.dfy`: `Option`, a Python `Optional` value.
- `paths.dfy`: the extension test `os.path.splitext(name)[1][1:]` for POSIX
  names.
  - The extension starts after the last '.' of the last path component.
  - That component must hold a character other than '.' before that dot.
  - Hence ".hidden" and "..x" have no extension, while "name." has the
    empty extension: the text after its dot is empty.
- `exporter.dfy`: `MediaExporter`.
  - The host collection is a value of abstract functions: deck name,
    search-string builder, note search, note store, and the
    field-text-to-filenames scanner `filesInStr`. Its media directory is a
    map from file name to contents.
  - `file_lists` is the method `FileLists`. It builds the search nodes, scans
    one field or all fields of each found note, and collects one filename
    list per note. It is proved equal to the function `NoteLists`.
  - `export` is the method `Export`. It runs the `seen`/`exported` loop
    against a `Folder` object. The folder's file map is updated in place by
    `CopyFile`, the model of `shutil.copyfile`. A ghost log in the folder
    records every copy in order.
  - The values the generator yields are returned as a sequence of
    `Progress(count, filenames)`. The method is proved equal to the function
    `Steps`. The folder gains exactly the files of the function `Copied` of
    the set `Exported` (overwriting any of the same names) and keeps its
    other files. Its copy log grows by `CopyOrder`.
  - Lemmas about those functions state the run's guarantees:
    - each name is copied at most once;
    - a name is copied exactly when it is referenced, admitted by the filter,
      and present in the media directory;
    - each count is the number of copies so far;
    - the counts never decrease and grow by at most the number of new names;
    - a consumer that stops early has seen a prefix of the whole run, and the
      folder has gained exactly the files of the lists processed so far and
      kept its other files. The
      method `ExportFirst` models such a consumer, the `break` of the
      progress loop in `src/__init__.py`: it runs the export for at most n
      lists.
- `multiselect.dfy`: the `MultiSelect` list widget, a class.
  - It holds the items of rows 1 to n-1 as (text, checked) values, and the
    state of the tri-state "All" box of row 0.
  - The widget toolkit keeps only two rules:
    - a box reports a state change only when its state really changes;
    - a box whose signals are blocked runs no handler.
  - So `setChecked` on an item runs the item handler only on a change, and
    the "All" handler sets the items without re-running the item handler.
- The invariant `Valid` says that the "All" box shows the aggregate of the
  items:
  - unchecked when none is checked (zero items included);
  - checked when all are checked;
  - partially checked otherwise.
- One exception follows from the code as written. A list with no items whose
  "All" box was clicked (or set) to checked stays checked: the "All" handler
  loops over no rows, and the item handler never runs. `Valid` allows exactly
  that state.

The model follows `src/exporter.py` itself where its callers expect more of
it:
- The code takes a single optional field name. `src/gui/export_dialog.py:20`
  describes exporters built from a list of fields.
- A note without that field makes `note[field]` raise KeyError. The code does
  not skip it.
- The code scans no note-type templates or CSS, and defines neither the
  `DeckMediaExporter` nor the `NoteMediaExporter` that `src/__init__.py:24`
  imports.
- The code resolves the notes on every call, with no cache.

## Model

| member | source | states |
|---|---|---|
| Paths.Extension | src/exporter.py:53 | The extension of a name, as `os.path.splitext(name)[1][1:]` computes it on POSIX. Its meaning is stated by `Paths.ExtensionShape` and `Paths.ExtensionOfSplit`. |
| Paths.ExtensionShape | src/exporter.py:53 | An extension holds no '.' or '/'. When it is not empty, it is the tail of the name, right after a '.'. |
| Paths.ExtensionOfSplit | src/exporter.py:53 | For every name written `stem + "." + ext` with the last dot and no '/' after that dot, the extension is `ext` when the stem's last component is not all dots, and "" when it is all dots (so ".." has no extension). |
| Paths.ExtensionWithoutDot | src/exporter.py:53 | A name without a dot has no extension. |
| Paths.ExtensionOfPlainName | src/exporter.py:53 | "cat.jpg" has extension "jpg". |
| Paths.ExtensionOfDoubleSuffix | src/exporter.py:53 | "archive.tar.gz" has extension "gz": only the last suffix counts. |
| Paths.ExtensionOfHiddenName | src/exporter.py:53 | ".hidden" has no extension. |
| Paths.ExtensionOfLeadingDots | src/exporter.py:53 | "..x" has no extension. |
| Paths.ExtensionOfTrailingDot | src/exporter.py:53 | "name." has the empty extension. |
| Paths.ExtensionOfDottedDirectory | src/exporter.py:53 | A dot in a directory part gives no extension ("dir.d/file"). |
| Exporter.FieldValue | src/exporter.py:31 | `note[field]` gives a value that some field of that name holds. It is absent (KeyError) exactly when no field has that name. |
| Exporter.Restricts | src/exporter.py:25 | The truth test `if self.field:` holds exactly when a field is given and is not "". Its consequences are stated by `Exporter.SearchParams` and `Exporter.ScannedText`. |
| Exporter.SearchParams | src/exporter.py:24-27 | The first search node is the deck node. There is a second node, the field node for that field, exactly when the field is set and non-empty. |
| Exporter.ScannedText | src/exporter.py:30-34 | When a field is set, the scanned text is that field's value, and the scan fails exactly when the note has no such field. Without a field, the text is all field values joined. |
| Exporter.JoinValues | src/exporter.py:33 | `"".join` of the field values. Its meaning is stated by `Exporter.JoinValuesOfOne` and `Exporter.JoinValuesAppend`. |
| Exporter.JoinValuesAppend | src/exporter.py:33 | Joining the fields of `a + b` gives the join of `a` followed by the join of `b`. |
| Exporter.JoinValuesOfOne | src/exporter.py:33 | The joined text starts with the first field's value, and the other fields' values follow in order. |
| Exporter.NoteLists | src/exporter.py:28-34 | What `file_lists` yields for a sequence of notes, and whether it stops with a KeyError. Its meaning is stated by `Exporter.NoteListsMeaning`. |
| Exporter.NoteListsMeaning | src/exporter.py:28-34 | There is one list per found note, in search order, each `filesInStr(mid, text)` of that note's scanned text. A KeyError occurs exactly when a note lacking the field cuts the lists short, and it is that note's scan that fails. |
| Exporter.UnrestrictedListsAreComplete | src/exporter.py:25-34 | With no field (None or ""), every note yields a list and no KeyError arises. |
| Exporter.Admits | src/exporter.py:53-54 | The extension filter: with no `exts` every name passes, and otherwise a name passes exactly when its extension is in `exts`. Its consequences are stated by `Exporter.CopyOrderElems`. |
| Exporter.Copyable | src/exporter.py:53-57 | A name is copied when it passes the filter and exists in the media directory. Its consequences are stated by `Exporter.CopyOrderElems`. |
| Exporter.Exported | src/exporter.py:50-60 | The exported names are among the referenced names (`exported` ⊆ `seen`) and among the files of the media directory. |
| Exporter.CopyOrder | src/exporter.py:50-59 | The copies a run makes over a sequence of references, in order. Its meaning is stated by `Exporter.CopyOrderElems` and `Exporter.CopyOrderDistinct`. |
| Exporter.Steps | src/exporter.py:48-61 | The run yields exactly one value per note's list. |
| Exporter.Copied | src/exporter.py:55-59 | The files written are the exported names present in the media directory, each under its own name with the source contents. |
| Exporter.Folder.CopyFile | src/exporter.py:58-59 | One copy writes exactly the file of that name, with the given contents, and logs the copy. |
| Exporter.MediaExporter.constructor | src/exporter.py:17-20 | The exporter keeps its collection, deck id and optional field. |
| Exporter.MediaExporter.FileLists | src/exporter.py:22-34 | The lists are exactly `NoteLists` of the deck's notes, and so is the KeyError flag. |
| Exporter.MediaExporter.Export | src/exporter.py:36-61 | The values yielded are `Steps` of the note lists. The folder gains exactly `Copied` of the exported names, and nothing else in it changes. The copy log grows by `CopyOrder` of all references. A KeyError from `file_lists` is reported after the earlier notes' values. |
| Exporter.MediaExporter.ExportFirst | src/__init__.py:55-66 | A consumer of `export` that stops after n values sees exactly the first n values of the whole run (all of them when there are fewer). The folder has gained exactly `Copied` of the names exported from those lists, and the copy log grows by their `CopyOrder`. The KeyError is reported only when the consumer pulls past the last list. |
| Exporter.MediaExporter.ExportLists | src/exporter.py:48-61 | The outer loop over the first n note lists: the values yielded are `Steps` of those lists, and the folder and the copy log are those of their references. |
| Exporter.MediaExporter.ExportNames | src/exporter.py:49-60 | After one note's list, `seen`, `exported`, the folder's files and the copy log equal their specification functions of all references so far. |
| Exporter.MediaExporter.ExportName | src/exporter.py:50-60 | For one reference, a name seen before changes nothing. Otherwise it becomes seen, and it is copied and exported exactly when it passes the filter and exists. |
| Exporter.RunStep | src/exporter.py:50-60 | A reference seen before, or one that is not copyable, changes neither the exported set nor the copy log. A new copyable name joins both. |
| Exporter.StepAt | src/exporter.py:47-61 | The k-th value yielded is the number of names exported after lists 0..k, paired with list k unfiltered. |
| Exporter.CopyOrderElems | src/exporter.py:53-60 | A name is copied exactly when it is referenced and present in the media directory, and, when a filter is given, its extension is in the filter. A missing file is neither copied nor counted. |
| Exporter.CopyOrderDistinct | src/exporter.py:50-59 | Within one run no name is copied twice. |
| Exporter.ExportedCountIsCopies | src/exporter.py:47-61 | The number of exported names equals the number of copies made. |
| Exporter.CopyOrderExtends | src/exporter.py:50-57 | A longer run's copies start with a shorter run's copies. The added copies are of names the shorter run had not seen, so a rejected or missing name is never reconsidered. |
| Exporter.ExportedGrowth | src/exporter.py:60-61 | More references never lose an exported name. They add at most as many as there are names new to the run. |
| Exporter.StepCount | src/exporter.py:47-61 | Each count is the number of copies so far. It is at least the previous count and at most that plus the number of names that list is first to mention. Each value carries its list unfiltered. |
| Exporter.StepsMonotone | src/exporter.py:61 | The counts never decrease. |
| Exporter.CutRun | src/exporter.py:48-61 | The files written for the first n lists are keyed by exactly the names exported from those lists. Their number is the n-th count yielded, and they are among the files the whole run writes. |
| Exporter.StepsPrefix | src/exporter.py:48-61 | Stopping after n values gives exactly the first n values of the whole run. |
| Exporter.TwoNotesScenario | src/exporter.py:48-61 | Two notes referencing two present files, with no filter, yield (1, [a]) then (2, [b]) and copy a then b. |
| Exporter.DuplicateReferenceScenario | src/exporter.py:50-52 | Two notes referencing the same file give one copy, and the count stays at 1. |
| Exporter.MissingFileScenario | src/exporter.py:55-57 | A missing file is skipped: a present one is copied, and the count is 1. |
| Exporter.ExtensionFilterScenario | src/exporter.py:53 | With a filter, only the name whose extension the filter admits is copied. |
| Exporter.TwoNoteLists | src/exporter.py:28-34 | On a deck of two notes whose single field names "a" and "b", scanning all fields yields ["a"] then ["b"], with no KeyError. |
| Exporter.TwoNoteExporterLists | src/exporter.py:22-34 | An exporter for that whole deck yields those two lists, with no KeyError. |
| Exporter.TwoNoteSteps | src/exporter.py:48-61 | Over those lists, with both files present, the counts are 1 and then 2. |
| Exporter.TwoNoteFiles | src/exporter.py:55-59 | Over those lists, an empty folder receives both files with their contents. |
| Exporter.TwoNotesExport | src/exporter.py:36-61 | A whole `export` call on that deck yields (1, ["a"]) and then (2, ["b"]), raises no KeyError, and leaves both files in the empty destination folder. |
| Exporter.FirstNoteExport | src/__init__.py:55-66 | A consumer that stops after one value on that deck sees (1, ["a"]), gets no KeyError, and the folder holds only "a". |
| Exporter.GapLists | src/exporter.py:28-34 | On a deck of three notes where note 2 lacks the field "Front", scanning "Front" yields note 1's list and then the KeyError. |
| Exporter.GapExporterLists | src/exporter.py:22-34 | An exporter restricted to "Front" on that deck yields only note 1's list, and the KeyError. |
| Exporter.SingleListRun | src/exporter.py:48-61 | Over the one list ["a"], with "a" present, the run yields one value counting 1 and writes only "a". |
| Exporter.KeyErrorExport | src/exporter.py:36-61 | A whole `export` call restricted to "Front" on that deck yields one value, (1, ["a"]), then reports the KeyError, and the folder holds only "a". |
| MultiSelect.Aggregate | src/gui/multiselect.py:38-49 | The "All" state that the item handler computes from the items. Its meaning is stated by `MultiSelect.AggregateMeaning`. |
| MultiSelect.NextCheckState | src/gui/multiselect.py:9-16 | A click never makes the "All" box partial. It makes the box checked exactly when it was not checked (unchecked or partial). |
| MultiSelect.CheckedCount | src/gui/multiselect.py:38-43 | The number of checked items, at most the number of items. Its extremes are stated by `MultiSelect.CheckedCountExtremes`. |
| MultiSelect.CheckedCountExtremes | src/gui/multiselect.py:38-43 | The count of checked items is 0 exactly when none is checked. It is the number of items exactly when all are checked. |
| MultiSelect.AggregateMeaning | src/gui/multiselect.py:44-49 | The aggregate is unchecked exactly when no item is checked (zero items included). It is checked exactly when there are items and all are checked, and partial exactly when some are checked and some are not. |
| MultiSelect.WithAll | src/gui/multiselect.py:61-66 | Setting every item keeps their number and texts, and all take the given state. |
| MultiSelect.AggregateWithAll | src/gui/multiselect.py:56-66 | After every item is set to a state, the aggregate is that state, or unchecked when there are no items. |
| MultiSelect.WithAllAgreeing | src/gui/multiselect.py:68-71 | Setting every item to the state the aggregate already shows changes no item. |
| MultiSelect.CheckedLabels | src/gui/multiselect.py:78-85 | There are as many selected labels as checked items. |
| MultiSelect.CheckedLabelsMembership | src/gui/multiselect.py:78-85 | A text is selected exactly when some checked item carries it. |
| MultiSelect.CheckedLabelsOfWithAll | src/gui/multiselect.py:78-85 | After "All" sets every item, the selection is every text in row order when checked, and empty when unchecked. |
| MultiSelect.SelectionOfAggregate | src/gui/multiselect.py:78-85 | When the items call for a checked "All" box, every item's text is selected. When they call for an unchecked one, nothing is. |
| MultiSelect.MultiSelect.constructor | src/gui/multiselect.py:20-27 | A new list has no items and an unchecked "All" box, and satisfies the invariant. |
| MultiSelect.MultiSelect.AddItem | src/gui/multiselect.py:29-35 | A new checked item is appended and the earlier rows are unchanged. The "All" box then shows the aggregate. The invariant is kept. |
| MultiSelect.MultiSelect.SetItemChecked | src/gui/multiselect.py:68-71 | Only that row takes the state. The item handler runs, and "All" becomes the aggregate, exactly when the row's state changes. Otherwise nothing changes. |
| MultiSelect.MultiSelect.OnItemStateChanged | src/gui/multiselect.py:37-54 | The items are unchanged and the "All" box takes the aggregate of the items. |
| MultiSelect.MultiSelect.OnCheckAll | src/gui/multiselect.py:56-66 | For a partial state nothing changes. Otherwise every item takes the state, the "All" box is left alone, and no item handler runs. |
| MultiSelect.MultiSelect.ClickAll | src/gui/multiselect.py:9-16 | A click on "All" moves it to its next state and sets every item to match. The invariant is kept. |
| MultiSelect.MultiSelect.ClickItem | src/gui/multiselect.py:37-54 | A click on an item toggles only that item, "All" becomes the aggregate, and the invariant is kept. |
| MultiSelect.MultiSelect.SetChecked | src/gui/multiselect.py:68-71 | On an item row, only that row changes and "All" follows the aggregate. On row 0, "All" takes the state and every item matches it. The invariant is kept. |
| MultiSelect.MultiSelect.Label | src/gui/multiselect.py:73-76 | Row 0's text is "All". Any other row's text is that item's text, unchanged. |
| MultiSelect.MultiSelect.SelectedLabels | src/gui/multiselect.py:78-85 | The texts of the checked item rows in row order, never row 0. |
| MultiSelect.TwoItemsScenario | src/gui/multiselect.py:29-85 | Two added items: unchecking the first leaves "All" partial and selects only the second. Clicking "All" then selects both again. |

## Left out

- The host collection's behaviour (deck names, the search language, note lookup, `filesInStr`'s media syntax) is abstract. The model states the exporter's logic for every choice of those functions, not what the host computes.
- Paths are POSIX only: `Paths.Extension` follows `posixpath` with '/' as the only separator, not Windows `ntpath` with '\\' and drive letters. Anki media file names contain neither.
- The media directory `media.dir()` and the filesystem: `os.path.join`, `os.path.exists` and `shutil.copyfile` are a map lookup and a map update. Absolute names, names with '/' or '..', permissions, I/O errors and symbolic links are not modelled. The destination `Folder` is kept apart from the media map `col.media`. Choosing the media directory itself as the destination, where `shutil.copyfile` at src/exporter.py:59 raises `SameFileError` on the first present file, is not modelled.
- Laziness of the generators: `FileLists` runs to the end, and `Export` and `ExportFirst` return every value they yield as one sequence. A consumer that stops after n values is the method `ExportFirst`, which runs the export for at most n lists; `StepsPrefix` and `CutRun` relate such a cut run to the whole run. Reading the notes is not interleaved with copying. The order of note reads and file copies is not observable in the model, because the collection is a value.
- Background threads, progress throttling by wall-clock time, and the cancellation loop of the callers in `src/__init__.py` and the dialogs are out of scope as concurrency and timing.
- The Qt widgets, the signal wiring (`qconnect`, `blockSignals`), item widgets and `setSpacing` are reduced to the two rules above. Mouse input is the methods `ClickAll` and `ClickItem`. A row outside the list in `set_checked` or `label` (which fails in Qt) is excluded by a precondition.
- `MultiSelect.MultiSelect.Valid`: this invariant is weaker than "All equals the aggregate", because the code lets an item-less list keep a checked "All" box.
- The note-type CSS/template scanners, the `NoteMediaExporter`/`DeckMediaExporter` variants, and `notes`, `all_fields` and `all_extensions` are referred to by other files but are not part of this model: `src/exporter.py` does not define them.
- The dialogs (`src/gui/export_dialog.py`, `src/gui/dialog.py`), the menu and editor hooks, and configuration lookups are UI plumbing and are not part of this model.
