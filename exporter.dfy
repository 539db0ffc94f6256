/**
 * The deck media exporter: for every note of a deck, the media files its
 * fields reference, and the export run that copies each such file once to a
 * destination folder, reporting after every note how many distinct files it
 * has copied so far.
 *
 * The host application is abstract: its deck names, search-string builder,
 * note search, note store and field-to-filenames scanner are functions held
 * in a Collection value, and its media directory is a map from file name to
 * contents. The destination folder is a Folder object whose file map the run
 * updates in place.
 */
module Exporter {
  import opened Optional
  import Paths

  newtype byte = x: int | 0 <= x < 256
  type Bytes = seq<byte>

  type NoteId = int
  type NoteTypeId = int
  type DeckId = int

  /** One field of a note, by name, in the note type's field order. */
  datatype Field = Field(name: string, value: string)

  /** A note: its note type (`mid`) and its fields in order. */
  datatype Note = Note(mid: NoteTypeId, fields: seq<Field>)

  /** A node of the host's structured search: deck membership, or a non-empty field. */
  datatype SearchNode = DeckNode(deck: string) | FieldNameNode(fieldName: string)

  /** The parts of the host collection that the exporter calls into. */
  datatype Collection = Collection(
    deckName: DeckId -> string,
    buildSearch: seq<SearchNode> -> string,
    findNotes: string -> seq<NoteId>,
    getNote: NoteId -> Note,
    filesInStr: (NoteTypeId, string) -> seq<string>,
    media: map<string, Bytes>)

  /** `note[name]`: the value of the field called `name`; None where the lookup raises KeyError. */
  function FieldValue(fields: seq<Field>, name: string): (r: Option<string>)
    ensures r.Some? ==> exists i :: 0 <= i < |fields| && fields[i] == Field(name, r.value)
    ensures r.None? ==> forall i :: 0 <= i < |fields| ==> fields[i].name != name
  {
    if fields == [] then None
    else if fields[0].name == name then Some(fields[0].value)
    else
      var r := FieldValue(fields[1..], name);
      assert r.Some? ==> exists i :: 0 <= i < |fields[1..]| && fields[1..][i] == Field(name, r.value);
      r
  }

  /** `"".join(note.fields)`: all field values, concatenated in field order. */
  function JoinValues(fields: seq<Field>): string {
    if fields == [] then "" else JoinValues(fields[..|fields| - 1]) + fields[|fields| - 1].value
  }

  /** Joining splits over the fields: the values of `a` come first, those of `b` after them. */
  lemma {:induction false} JoinValuesAppend(a: seq<Field>, b: seq<Field>)
    ensures JoinValues(a + b) == JoinValues(a) + JoinValues(b)
  {
    if b == [] {
      assert a + b == a;
    } else {
      assert (a + b)[..|a + b| - 1] == a + b[..|b| - 1];
      JoinValuesAppend(a, b[..|b| - 1]);
    }
  }

  /** The first field's value starts the joined text, and the other fields' values follow it. */
  lemma {:induction false} JoinValuesOfOne(f: Field, rest: seq<Field>)
    ensures JoinValues([f] + rest) == f.value + JoinValues(rest)
  {
    JoinValuesAppend([f], rest);
    assert [f][..0] == [];
  }

  /** Python truthiness of the exporter's `field`: neither None nor the empty string. */
  predicate Restricts(field: Option<string>) {
    field.Some? && field.value != ""
  }

  /** The search nodes of `file_lists`: the deck node, then a field node when a field is set. */
  function SearchParams(deck: string, field: Option<string>): (params: seq<SearchNode>)
    ensures |params| >= 1 && params[0] == DeckNode(deck)
    ensures |params| == 2 <==> Restricts(field)
    ensures |params| <= 2
    ensures Restricts(field) ==> params[1] == FieldNameNode(field.value)
  {
    if Restricts(field) then [DeckNode(deck), FieldNameNode(field.value)] else [DeckNode(deck)]
  }

  /**
   * The text of a note that `file_lists` scans: only the named field when a
   * field is set, all fields concatenated otherwise. None when the note has
   * no field of that name.
   */
  function ScannedText(note: Note, field: Option<string>): (text: Option<string>)
    ensures text.None? <==> Restricts(field) && forall i :: 0 <= i < |note.fields| ==> note.fields[i].name != field.value
    ensures Restricts(field) && text.Some? ==> exists i :: 0 <= i < |note.fields| && note.fields[i] == Field(field.value, text.value)
    ensures !Restricts(field) ==> text == Some(JoinValues(note.fields))
  {
    if Restricts(field) then FieldValue(note.fields, field.value) else Some(JoinValues(note.fields))
  }

  /**
   * What the `file_lists` generator yields for the notes `nids`: one filename
   * list per note, in order, and whether it stopped with a KeyError at a note
   * without the selected field.
   */
  function NoteLists(col: Collection, nids: seq<NoteId>, field: Option<string>): (seq<seq<string>>, bool)
  {
    if nids == [] then ([], false)
    else
      var note := col.getNote(nids[0]);
      match ScannedText(note, field)
      case None => ([], true)
      case Some(text) =>
        var rest := NoteLists(col, nids[1..], field);
        ([col.filesInStr(note.mid, text)] + rest.0, rest.1)
  }

  /**
   * The lists are those of the notes in search order, each from the scanned
   * text of its note, up to the first note without the selected field; a
   * KeyError is raised exactly when such a note cuts the lists short.
   */
  lemma {:induction false} NoteListsMeaning(col: Collection, nids: seq<NoteId>, field: Option<string>)
    ensures var (lists, keyError) := NoteLists(col, nids, field);
      && |lists| <= |nids|
      && (keyError <==> |lists| < |nids|)
      && (keyError ==> ScannedText(col.getNote(nids[|lists|]), field).None?)
      && forall k :: 0 <= k < |lists| ==>
           var note := col.getNote(nids[k]);
           ScannedText(note, field).Some? && lists[k] == col.filesInStr(note.mid, ScannedText(note, field).value)
  {
    if nids != [] && ScannedText(col.getNote(nids[0]), field).Some? {
      NoteListsMeaning(col, nids[1..], field);
    }
  }

  /** Without a field restriction every note is scanned and no KeyError arises. */
  lemma UnrestrictedListsAreComplete(col: Collection, nids: seq<NoteId>, field: Option<string>)
    requires !Restricts(field)
    ensures !NoteLists(col, nids, field).1 && |NoteLists(col, nids, field).0| == |nids|
  {
    NoteListsMeaning(col, nids, field);
  }

  /** The lists from note `i` on: that note's scan, then the lists from note `i + 1` on. */
  lemma NoteListsAt(col: Collection, nids: seq<NoteId>, field: Option<string>, i: nat)
    requires i < |nids|
    ensures var note := col.getNote(nids[i]);
      match ScannedText(note, field)
      case None => NoteLists(col, nids[i..], field) == ([], true)
      case Some(text) =>
        && NoteLists(col, nids[i..], field).0 == [col.filesInStr(note.mid, text)] + NoteLists(col, nids[i + 1..], field).0
        && NoteLists(col, nids[i..], field).1 == NoteLists(col, nids[i + 1..], field).1
  {
    assert nids[i..][0] == nids[i];
    assert nids[i..][1..] == nids[i + 1..];
  }

  /** The set of names a sequence mentions. */
  function Elems(s: seq<string>): set<string> {
    set x | x in s
  }

  /** All filename lists, concatenated in order. */
  function Flatten(lists: seq<seq<string>>): seq<string> {
    if lists == [] then [] else Flatten(lists[..|lists| - 1]) + lists[|lists| - 1]
  }

  /** The extension filter: with `exts` given, the name's extension must be one of them. */
  predicate Admits(exts: Option<set<string>>, name: string) {
    exts.None? || Paths.Extension(name) in exts.value
  }

  /** A referenced name that the run copies: it passes the filter and exists in the media directory. */
  predicate Copyable(name: string, exts: Option<set<string>>, media: map<string, Bytes>) {
    Admits(exts, name) && name in media
  }

  /** The names copied by a run over the references `refs`. */
  function Exported(refs: seq<string>, exts: Option<set<string>>, media: map<string, Bytes>): (names: set<string>)
    ensures names <= Elems(refs) && names <= media.Keys
  {
    set f | f in refs && Copyable(f, exts, media)
  }

  /** The copy operations of a run over `refs`, in order: each first reference to a copyable name. */
  function CopyOrder(refs: seq<string>, exts: Option<set<string>>, media: map<string, Bytes>): seq<string> {
    if refs == [] then []
    else
      var init, f := refs[..|refs| - 1], refs[|refs| - 1];
      CopyOrder(init, exts, media) + (if f !in init && Copyable(f, exts, media) then [f] else [])
  }

  /** One value the `export` generator yields: the distinct files copied so far, and one note's filename list. */
  datatype Progress = Progress(count: nat, filenames: seq<string>)

  /** The values the `export` generator yields: after each list, the distinct files copied so far and the list itself. */
  function Steps(lists: seq<seq<string>>, exts: Option<set<string>>, media: map<string, Bytes>): (steps: seq<Progress>)
    ensures |steps| == |lists|
  {
    if lists == [] then []
    else Steps(lists[..|lists| - 1], exts, media) + [Progress(|Exported(Flatten(lists), exts, media)|, lists[|lists| - 1])]
  }

  /** The destination files written for the names `names`: each under its own name, with the source contents. */
  function Copied(media: map<string, Bytes>, names: set<string>): (files: map<string, Bytes>)
    ensures files.Keys == names * media.Keys
    ensures forall f :: f in files ==> files[f] == media[f]
  {
    map f | f in names && f in media :: media[f]
  }

  /** The destination folder. `copies` records every file copy made into it, in order. */
  class Folder {
    var files: map<string, Bytes>
    ghost var copies: seq<string>

    constructor(files: map<string, Bytes>)
      ensures this.files == files && copies == []
    {
      this.files := files;
      copies := [];
    }

    /** `shutil.copyfile` into this folder: writes (or overwrites) the one file `name`. */
    method CopyFile(name: string, data: Bytes)
      modifies this
      ensures files == old(files)[name := data]
      ensures copies == old(copies) + [name]
    {
      files := files[name := data];
      copies := copies + [name];
    }
  }

  class MediaExporter {
    const col: Collection
    const did: DeckId
    const field: Option<string>

    constructor(col: Collection, did: DeckId, field: Option<string>)
      ensures this.col == col && this.did == did && this.field == field
    {
      this.col := col;
      this.did := did;
      this.field := field;
    }

    /** The notes of the deck, as the host's search returns them. */
    function NoteIds(): seq<NoteId> {
      col.findNotes(col.buildSearch(SearchParams(col.deckName(did), field)))
    }

    /** The filename lists that `file_lists` yields for the deck. */
    function Lists(): seq<seq<string>> {
      NoteLists(col, NoteIds(), field).0
    }

    /** `file_lists`: the filename list of every note of the deck, in search order. */
    method FileLists() returns (lists: seq<seq<string>>, keyError: bool)
      ensures lists == NoteLists(col, NoteIds(), field).0
      ensures keyError == NoteLists(col, NoteIds(), field).1
    {
      var search := col.buildSearch(SearchParams(col.deckName(did), field));
      var nids := col.findNotes(search);
      lists, keyError := [], false;
      var i := 0;
      assert nids[i..] == nids;
      while i < |nids|
        invariant 0 <= i <= |nids|
        invariant NoteLists(col, nids, field).0 == lists + NoteLists(col, nids[i..], field).0
        invariant NoteLists(col, nids, field).1 == NoteLists(col, nids[i..], field).1
        invariant !keyError
      {
        NoteListsAt(col, nids, field, i);
        var note := col.getNote(nids[i]);
        var flds := ScannedText(note, field);
        if flds.None? {
          keyError := true;
          assert lists + [] == lists;
          return;
        }
        lists := lists + [col.filesInStr(note.mid, flds.value)];
        i := i + 1;
      }
      assert nids[i..] == [];
      assert lists + [] == lists;
    }

    /**
     * `export(folder, exts)` pulled to the end: copies every referenced media
     * file that passes the filter and exists, once, and yields after each
     * note. A KeyError of `file_lists` ends the run after the notes before it.
     */
    method Export(folder: Folder, exts: Option<set<string>>) returns (steps: seq<Progress>, keyError: bool)
      modifies folder
      ensures keyError == NoteLists(col, NoteIds(), field).1
      ensures steps == Steps(Lists(), exts, col.media)
      ensures folder.files == old(folder.files) + Copied(col.media, Exported(Flatten(Lists()), exts, col.media))
      ensures folder.copies == old(folder.copies) + CopyOrder(Flatten(Lists()), exts, col.media)
    {
      var lists;
      lists, keyError := FileLists();
      steps := ExportLists(folder, exts, lists, |lists|);
      assert lists[..|lists|] == lists;
    }

    /**
     * A consumer of `export(folder, exts)` that stops pulling after `n` values
     * (the cancelled export loop of the add-on's progress task): it sees the
     * first `n` values of the whole run, the folder gains exactly the files
     * of the first `n` lists and keeps its other files, and a KeyError
     * reaches it only when it pulls past the last list.
     */
    method ExportFirst(folder: Folder, exts: Option<set<string>>, n: nat) returns (steps: seq<Progress>, keyError: bool)
      modifies folder
      ensures var m := if n < |Lists()| then n else |Lists()|;
        && steps == Steps(Lists(), exts, col.media)[..m]
        && folder.files == old(folder.files) + Copied(col.media, Exported(Flatten(Lists()[..m]), exts, col.media))
        && folder.copies == old(folder.copies) + CopyOrder(Flatten(Lists()[..m]), exts, col.media)
      ensures keyError <==> NoteLists(col, NoteIds(), field).1 && n > |Lists()|
    {
      var lists, err := FileLists();
      var m := if n < |lists| then n else |lists|;
      steps := ExportLists(folder, exts, lists, m);
      StepsPrefix(lists, exts, col.media, m);
      keyError := err && n > |lists|;
    }

    /**
     * The outer loop of `export` over the first `n` of `lists`: the values
     * yielded, and the folder after them.
     */
    method ExportLists(folder: Folder, exts: Option<set<string>>, lists: seq<seq<string>>, n: nat)
      returns (steps: seq<Progress>)
      requires n <= |lists|
      modifies folder
      ensures steps == Steps(lists[..n], exts, col.media)
      ensures folder.files == old(folder.files) + Copied(col.media, Exported(Flatten(lists[..n]), exts, col.media))
      ensures folder.copies == old(folder.copies) + CopyOrder(Flatten(lists[..n]), exts, col.media)
    {
      var media := col.media;
      var seen: set<string> := {};
      var exported: set<string> := {};
      steps := [];
      var i := 0;
      ghost var done: seq<string> := [];
      assert lists[..i] == [];
      assert Copied(media, exported) == map[];
      while i < n
        invariant 0 <= i <= n
        invariant done == Flatten(lists[..i])
        invariant seen == Elems(done)
        invariant exported == Exported(done, exts, media)
        invariant folder.files == old(folder.files) + Copied(media, exported)
        invariant folder.copies == old(folder.copies) + CopyOrder(done, exts, media)
        invariant steps == Steps(lists[..i], exts, media)
      {
        var filenames := lists[i];
        seen, exported := ExportNames(folder, exts, filenames, seen, exported,
                                      done, old(folder.files), old(folder.copies));
        FlattenStep(lists, i);
        StepsStep(lists, i, exts, media);
        done := done + filenames;
        steps := steps + [Progress(|exported|, filenames)];
        i := i + 1;
      }
    }

    /**
     * The inner loop of `export` over one note's list. The ghost `done` is
     * what the run has processed before this list, and `files0` and `log0`
     * are the folder's files and copy log before the run.
     */
    method ExportNames(folder: Folder, exts: Option<set<string>>, filenames: seq<string>,
                       seen0: set<string>, exported0: set<string>,
                       ghost done: seq<string>, ghost files0: map<string, Bytes>, ghost log0: seq<string>)
      returns (seen: set<string>, exported: set<string>)
      requires seen0 == Elems(done)
      requires exported0 == Exported(done, exts, col.media)
      requires folder.files == files0 + Copied(col.media, exported0)
      requires folder.copies == log0 + CopyOrder(done, exts, col.media)
      modifies folder
      ensures seen == Elems(done + filenames)
      ensures exported == Exported(done + filenames, exts, col.media)
      ensures folder.files == files0 + Copied(col.media, exported)
      ensures folder.copies == log0 + CopyOrder(done + filenames, exts, col.media)
    {
      seen, exported := seen0, exported0;
      var j := 0;
      assert done + filenames[..j] == done;
      while j < |filenames|
        invariant 0 <= j <= |filenames|
        invariant seen == Elems(done + filenames[..j])
        invariant exported == Exported(done + filenames[..j], exts, col.media)
        invariant folder.files == files0 + Copied(col.media, exported)
        invariant folder.copies == log0 + CopyOrder(done + filenames[..j], exts, col.media)
      {
        assert done + filenames[..j + 1] == (done + filenames[..j]) + [filenames[j]];
        seen, exported := ExportName(folder, exts, filenames[j], seen, exported,
                                     done + filenames[..j], files0, log0);
        j := j + 1;
      }
      assert filenames[..j] == filenames;
    }

    /**
     * One pass of that loop, for `filename`: a name seen before is skipped;
     * otherwise it is marked seen, and copied when it passes the filter and
     * exists in the media directory.
     */
    method ExportName(folder: Folder, exts: Option<set<string>>, filename: string,
                      seen0: set<string>, exported0: set<string>,
                      ghost done: seq<string>, ghost files0: map<string, Bytes>, ghost log0: seq<string>)
      returns (seen: set<string>, exported: set<string>)
      requires seen0 == Elems(done)
      requires exported0 == Exported(done, exts, col.media)
      requires folder.files == files0 + Copied(col.media, exported0)
      requires folder.copies == log0 + CopyOrder(done, exts, col.media)
      modifies folder
      ensures seen == Elems(done + [filename])
      ensures exported == Exported(done + [filename], exts, col.media)
      ensures folder.files == files0 + Copied(col.media, exported)
      ensures folder.copies == log0 + CopyOrder(done + [filename], exts, col.media)
    {
      var media := col.media;
      RunStep(done, filename, exts, media);
      seen, exported := seen0, exported0;
      if filename in seen {
        return;
      }
      seen := seen + {filename};
      if exts.Some? && Paths.Extension(filename) !in exts.value {
        return;
      }
      if filename !in media {
        return;
      }
      CopiedAdd(files0, media, exported, filename);
      folder.CopyFile(filename, media[filename]);
      exported := exported + {filename};
    }
  }

  /**
   * One more reference `f`: a name seen before, or one that is not copyable,
   * changes neither the exported set nor the copy log; a new copyable name
   * joins the set and the log.
   */
  lemma RunStep(done: seq<string>, f: string, exts: Option<set<string>>, media: map<string, Bytes>)
    ensures Elems(done + [f]) == Elems(done) + {f}
    ensures f in done || !Copyable(f, exts, media) ==>
      Exported(done + [f], exts, media) == Exported(done, exts, media) &&
      CopyOrder(done + [f], exts, media) == CopyOrder(done, exts, media)
    ensures f !in done && Copyable(f, exts, media) ==>
      Exported(done + [f], exts, media) == Exported(done, exts, media) + {f} &&
      CopyOrder(done + [f], exts, media) == CopyOrder(done, exts, media) + [f]
  {
    assert (done + [f])[..|done|] == done;
  }

  lemma CopiedAdd(base: map<string, Bytes>, media: map<string, Bytes>, names: set<string>, f: string)
    requires f in media
    ensures base + Copied(media, names + {f}) == (base + Copied(media, names))[f := media[f]]
  {
  }

  lemma FlattenStep(lists: seq<seq<string>>, i: nat)
    requires i < |lists|
    ensures Flatten(lists[..i + 1]) == Flatten(lists[..i]) + lists[i]
  {
    assert lists[..i + 1][..i] == lists[..i];
  }

  lemma StepsStep(lists: seq<seq<string>>, i: nat, exts: Option<set<string>>, media: map<string, Bytes>)
    requires i < |lists|
    ensures Steps(lists[..i + 1], exts, media) == Steps(lists[..i], exts, media) + [Progress(|Exported(Flatten(lists[..i + 1]), exts, media)|, lists[i])]
  {
    assert lists[..i + 1][..i] == lists[..i];
  }

  /** The `k`-th yielded value: the files exported after the first `k + 1` lists, and list `k`. */
  lemma {:induction false} StepAt(lists: seq<seq<string>>, exts: Option<set<string>>, media: map<string, Bytes>, k: nat)
    requires k < |lists|
    ensures Steps(lists, exts, media)[k] == Progress(|Exported(Flatten(lists[..k + 1]), exts, media)|, lists[k])
  {
    var init := lists[..|lists| - 1];
    if k < |init| {
      StepAt(init, exts, media, k);
      assert init[..k + 1] == lists[..k + 1];
    } else {
      assert lists[..k + 1] == lists;
    }
  }

  // Properties of an export run

  /**
   * A name is copied exactly when some note references it, it passes the
   * extension filter (when there is one) and it exists in the media
   * directory: a missing file is skipped without being copied or counted.
   */
  lemma {:induction false} CopyOrderElems(refs: seq<string>, exts: Option<set<string>>, media: map<string, Bytes>)
    ensures Elems(CopyOrder(refs, exts, media)) == Exported(refs, exts, media)
    ensures forall f :: f in CopyOrder(refs, exts, media) <==>
      f in refs && f in media && (exts.None? || Paths.Extension(f) in exts.value)
  {
    if refs != [] {
      var init, f := refs[..|refs| - 1], refs[|refs| - 1];
      assert refs == init + [f];
      CopyOrderElems(init, exts, media);
      RunStep(init, f, exts, media);
    }
  }

  /** Within one run each name is copied at most once: the copy log has no repeats. */
  lemma {:induction false} CopyOrderDistinct(refs: seq<string>, exts: Option<set<string>>, media: map<string, Bytes>)
    ensures var log := CopyOrder(refs, exts, media);
      forall i, j :: 0 <= i < j < |log| ==> log[i] != log[j]
  {
    if refs != [] {
      var init, f := refs[..|refs| - 1], refs[|refs| - 1];
      CopyOrderDistinct(init, exts, media);
      CopyOrderElems(init, exts, media);
    }
  }

  /** The number of distinct exported names is the number of copies made. */
  lemma {:induction false} ExportedCountIsCopies(refs: seq<string>, exts: Option<set<string>>, media: map<string, Bytes>)
    ensures |Exported(refs, exts, media)| == |CopyOrder(refs, exts, media)|
  {
    if refs != [] {
      var init, f := refs[..|refs| - 1], refs[|refs| - 1];
      assert refs == init + [f];
      ExportedCountIsCopies(init, exts, media);
      RunStep(init, f, exts, media);
      if f in init && Copyable(f, exts, media) {
        assert f in Exported(init, exts, media);
        assert Exported(init, exts, media) + {f} == Exported(init, exts, media);
      }
    }
  }

  /**
   * A name referenced before is never copied later: the copies of a longer
   * run start with those of the shorter one, and the added copies are of
   * names the shorter run had not yet seen, whether it copied or rejected
   * them.
   */
  lemma {:induction false} CopyOrderExtends(p: seq<string>, l: seq<string>, exts: Option<set<string>>, media: map<string, Bytes>)
    ensures var short, long := CopyOrder(p, exts, media), CopyOrder(p + l, exts, media);
      && |short| <= |long| && long[..|short|] == short
      && forall f :: f in long[|short|..] ==> f !in p
  {
    if l == [] {
      assert p + l == p;
    } else {
      var l', x := l[..|l| - 1], l[|l| - 1];
      assert p + l == (p + l') + [x];
      CopyOrderExtends(p, l', exts, media);
      RunStep(p + l', x, exts, media);
      var short, mid := CopyOrder(p, exts, media), CopyOrder(p + l', exts, media);
      var long := CopyOrder(p + l, exts, media);
      assert long[..|mid|] == mid;
      assert long[..|short|] == mid[..|short|];
      forall f | f in long[|short|..] ensures f !in p {
        var k :| |short| <= k < |long| && long[k] == f;
        if k < |mid| {
          assert f == mid[|short|..][k - |short|];
        }
      }
    }
  }

  lemma SubsetCard(a: set<string>, b: set<string>)
    requires a <= b
    ensures |a| <= |b|
  {
    assert b == a + (b - a);
  }

  /**
   * More references never lose an exported name, and add at most as many as
   * there are names new to the run.
   */
  lemma ExportedGrowth(p: seq<string>, l: seq<string>, exts: Option<set<string>>, media: map<string, Bytes>)
    ensures Exported(p, exts, media) <= Exported(p + l, exts, media)
    ensures |Exported(p, exts, media)| <= |Exported(p + l, exts, media)|
    ensures |Exported(p + l, exts, media)| <= |Exported(p, exts, media)| + |Elems(l) - Elems(p)|
  {
    var before, after := Exported(p, exts, media), Exported(p + l, exts, media);
    var added := Elems(l) - Elems(p);
    assert before <= after;
    SubsetCard(before, after);
    assert after <= before + added;
    SubsetCard(after, before + added);
  }

  lemma {:induction false} FlattenAppend(a: seq<seq<string>>, b: seq<seq<string>>)
    ensures Flatten(a + b) == Flatten(a) + Flatten(b)
  {
    if b == [] {
      assert a + b == a;
    } else {
      assert (a + b)[..|a + b| - 1] == a + b[..|b| - 1];
      FlattenAppend(a, b[..|b| - 1]);
    }
  }

  /**
   * Each yielded count is the number of copies made so far, and is the
   * previous count plus at most the number of names the note's list is the
   * first to mention.
   */
  lemma StepCount(lists: seq<seq<string>>, exts: Option<set<string>>, media: map<string, Bytes>, k: nat)
    requires k < |lists|
    ensures Steps(lists, exts, media)[k].count == |CopyOrder(Flatten(lists[..k + 1]), exts, media)|
    ensures Steps(lists, exts, media)[k].filenames == lists[k]
    ensures var previous := if k == 0 then 0 else Steps(lists, exts, media)[k - 1].count;
      previous <= Steps(lists, exts, media)[k].count <= previous + |Elems(lists[k]) - Elems(Flatten(lists[..k]))|
  {
    StepAt(lists, exts, media, k);
    if k > 0 {
      StepAt(lists, exts, media, k - 1);
    }
    ExportedCountIsCopies(Flatten(lists[..k + 1]), exts, media);
    FlattenStep(lists, k);
    ExportedGrowth(Flatten(lists[..k]), lists[k], exts, media);
    if k == 0 {
      assert lists[..0] == [];
    }
  }

  /** The yielded counts never decrease. */
  lemma StepsMonotone(lists: seq<seq<string>>, exts: Option<set<string>>, media: map<string, Bytes>, k: nat, k': nat)
    requires k <= k' < |lists|
    ensures Steps(lists, exts, media)[k].count <= Steps(lists, exts, media)[k'].count
  {
    StepAt(lists, exts, media, k);
    StepAt(lists, exts, media, k');
    assert lists[..k' + 1] == lists[..k + 1] + lists[k + 1..k' + 1];
    FlattenAppend(lists[..k + 1], lists[k + 1..k' + 1]);
    ExportedGrowth(Flatten(lists[..k + 1]), Flatten(lists[k + 1..k' + 1]), exts, media);
  }

  /**
   * A consumer that stops pulling after `n` values (a cancelled export) has
   * seen exactly the first `n` values of the whole run.
   */
  lemma StepsPrefix(lists: seq<seq<string>>, exts: Option<set<string>>, media: map<string, Bytes>, n: nat)
    requires n <= |lists|
    ensures Steps(lists[..n], exts, media) == Steps(lists, exts, media)[..n]
  {
    forall k | 0 <= k < n ensures Steps(lists[..n], exts, media)[k] == Steps(lists, exts, media)[k] {
      StepAt(lists[..n], exts, media, k);
      StepAt(lists, exts, media, k);
      assert lists[..n][..k + 1] == lists[..k + 1];
    }
  }

  /**
   * A run whose consumer stops after the first `n` values has written
   * exactly the exported names of the first `n` lists, each with its source
   * contents; their number is the last count the consumer saw, and they are
   * among the files the whole run would write.
   */
  lemma CutRun(lists: seq<seq<string>>, exts: Option<set<string>>, media: map<string, Bytes>, n: nat)
    requires 0 < n <= |lists|
    ensures var written := Copied(media, Exported(Flatten(lists[..n]), exts, media));
      && written.Keys == Exported(Flatten(lists[..n]), exts, media)
      && |written.Keys| == Steps(lists, exts, media)[n - 1].count
      && written.Keys <= Copied(media, Exported(Flatten(lists), exts, media)).Keys
  {
    var pre, rest := Flatten(lists[..n]), Flatten(lists[n..]);
    var cut, whole := Exported(pre, exts, media), Exported(Flatten(lists), exts, media);
    StepAt(lists, exts, media, n - 1);
    assert lists == lists[..n] + lists[n..];
    FlattenAppend(lists[..n], lists[n..]);
    assert Flatten(lists) == pre + rest;
    ExportedGrowth(pre, rest, exts, media);
    assert cut <= whole;
    assert Copied(media, cut).Keys == cut;
    assert Copied(media, whole).Keys == whole;
  }

  // Scenarios

  lemma FlattenPair(x: seq<string>, y: seq<string>)
    ensures Flatten([x]) == x && Flatten([x, y]) == x + y
  {
    assert [x][..0] == [] && [x, y][..1] == [x];
  }

  lemma StepsOfTwo(l1: seq<string>, l2: seq<string>, exts: Option<set<string>>, media: map<string, Bytes>)
    ensures Steps([l1], exts, media) == [Progress(|Exported(l1, exts, media)|, l1)]
    ensures Steps([l1, l2], exts, media) == [Progress(|Exported(l1, exts, media)|, l1), Progress(|Exported(l1 + l2, exts, media)|, l2)]
  {
    assert [l1][..0] == [] && [l1, l2][..1] == [l1];
    assert Flatten([l1]) == l1;
  }

  lemma CopyOrderOfTwo(x: string, y: string, exts: Option<set<string>>, media: map<string, Bytes>)
    ensures CopyOrder([x], exts, media) == if Copyable(x, exts, media) then [x] else []
    ensures CopyOrder([x, y], exts, media) == CopyOrder([x], exts, media) + if y != x && Copyable(y, exts, media) then [y] else []
  {
    assert [x][..0] == [] && [x, y][..1] == [x];
  }

  /**
   * Two notes of a deck, one referencing `a` and one `b`, both present in the
   * media directory and no filter: the run yields (1, [a]) then (2, [b]) and
   * copies both files, in that order.
   */
  lemma TwoNotesScenario(a: string, b: string, media: map<string, Bytes>)
    requires a != b && a in media && b in media
    ensures Steps([[a], [b]], None, media) == [Progress(1, [a]), Progress(2, [b])]
    ensures CopyOrder(Flatten([[a], [b]]), None, media) == [a, b]
  {
    StepsOfTwo([a], [b], None, media);
    CopyOrderOfTwo(a, b, None, media);
    assert [a] + [b] == [a, b];
    FlattenPair([a], [b]);
    assert [a] + [b] == [a, b];
    ExportedCountIsCopies([a], None, media);
    ExportedCountIsCopies([a, b], None, media);
  }

  /** Two notes referencing the same present file: one copy, and the count stays at 1. */
  lemma DuplicateReferenceScenario(a: string, media: map<string, Bytes>)
    requires a in media
    ensures Steps([[a], [a]], None, media) == [Progress(1, [a]), Progress(1, [a])]
    ensures CopyOrder(Flatten([[a], [a]]), None, media) == [a]
  {
    StepsOfTwo([a], [a], None, media);
    CopyOrderOfTwo(a, a, None, media);
    assert [a] + [a] == [a, a];
    FlattenPair([a], [a]);
    assert [a] + [a] == [a, a];
    ExportedCountIsCopies([a], None, media);
    ExportedCountIsCopies([a, a], None, media);
  }

  /** A list with one present file `a` and one missing file `b`: one copy, a count of 1, no error. */
  lemma MissingFileScenario(a: string, b: string, media: map<string, Bytes>)
    requires a in media && b !in media
    ensures Steps([[a, b]], None, media) == [Progress(1, [a, b])]
    ensures CopyOrder(Flatten([[a, b]]), None, media) == [a]
  {
    StepsOfTwo([a, b], [], None, media);
    CopyOrderOfTwo(a, b, None, media);
    assert Flatten([[a, b]]) == [a, b] by { assert [[a, b]][..0] == []; }
    ExportedCountIsCopies([a, b], None, media);
  }

  /**
   * A note referencing `a`, whose extension the filter admits, and `b`, whose
   * extension it does not, both present: only `a` is copied.
   */
  lemma ExtensionFilterScenario(a: string, b: string, exts: set<string>, media: map<string, Bytes>)
    requires a in media && b in media
    requires Paths.Extension(a) in exts && Paths.Extension(b) !in exts
    ensures Steps([[a, b]], Some(exts), media) == [Progress(1, [a, b])]
    ensures CopyOrder(Flatten([[a, b]]), Some(exts), media) == [a]
  {
    StepsOfTwo([a, b], [], Some(exts), media);
    CopyOrderOfTwo(a, b, Some(exts), media);
    assert Flatten([[a, b]]) == [a, b] by { assert [[a, b]][..0] == []; }
    ExportedCountIsCopies([a, b], Some(exts), media);
  }

  /** A collection whose deck holds notes 1 and 2, each with one field "Front" naming one media file. */
  function TwoNoteCollection(media: map<string, Bytes>): Collection {
    Collection(
      d => "Default",
      params => "deck:Default",
      search => [1, 2],
      nid => Note(0, [Field("Front", if nid == 1 then "a" else "b")]),
      (mid, text) => [text],
      media)
  }

  /** Scanning both notes of that collection yields ["a"] and then ["b"]. */
  lemma TwoNoteLists(media: map<string, Bytes>)
    ensures NoteLists(TwoNoteCollection(media), [1, 2], None) == ([["a"], ["b"]], false)
  {
    var col := TwoNoteCollection(media);
    var fa, fb := [Field("Front", "a")], [Field("Front", "b")];
    assert col.getNote(1) == Note(0, fa) && col.getNote(2) == Note(0, fb);
    assert fa[..0] == [] && fb[..0] == [];
    assert JoinValues(fa) == "a" && JoinValues(fb) == "b";
    assert col.filesInStr(0, "a") == ["a"] && col.filesInStr(0, "b") == ["b"];
    assert ScannedText(col.getNote(2), None) == Some("b");
    assert NoteLists(col, [], None) == ([], false);
    assert [2][1..] == [];
    assert [["b"]] + [] == [["b"]] && [["a"]] + [["b"]] == [["a"], ["b"]];
    assert NoteLists(col, [2], None) == ([["b"]], false);
    assert [1, 2][1..] == [2];
  }

  /** An exporter over that collection, for the whole deck, yields those two lists without error. */
  lemma TwoNoteExporterLists(exporter: MediaExporter, media: map<string, Bytes>)
    requires exporter.col == TwoNoteCollection(media) && exporter.field == None
    ensures exporter.Lists() == [["a"], ["b"]]
    ensures !NoteLists(exporter.col, exporter.NoteIds(), exporter.field).1
  {
    TwoNoteLists(media);
    assert exporter.NoteIds() == [1, 2];
  }

  /** Over the lists ["a"] and ["b"], both present, the run counts 1 and then 2. */
  lemma TwoNoteSteps(media: map<string, Bytes>)
    requires media == map["a" := [1], "b" := [2]]
    ensures Steps([["a"], ["b"]], None, media) == [Progress(1, ["a"]), Progress(2, ["b"])]
  {
    TwoNotesScenario("a", "b", media);
  }

  /** Over the same lists, an empty folder receives every file of the media directory. */
  lemma TwoNoteFiles(media: map<string, Bytes>)
    requires media == map["a" := [1], "b" := [2]]
    ensures map[] + Copied(media, Exported(Flatten([["a"], ["b"]]), None, media)) == media
  {
    FlattenPair(["a"], ["b"]);
    assert Exported(["a", "b"], None, media) == {"a", "b"};
  }

  /**
   * A whole `export` call on a two-note deck whose notes reference the
   * present files "a" and "b": two values, counting 1 and then 2, no error,
   * and both files in the destination with their contents.
   */
  method TwoNotesExport() returns (steps: seq<Progress>, keyError: bool, files: map<string, Bytes>)
    ensures steps == [Progress(1, ["a"]), Progress(2, ["b"])]
    ensures !keyError
    ensures files == map["a" := [1], "b" := [2]]
  {
    var media: map<string, Bytes> := map["a" := [1], "b" := [2]];
    var exporter := new MediaExporter(TwoNoteCollection(media), 1, None);
    var folder := new Folder(map[]);
    TwoNoteExporterLists(exporter, media);
    TwoNoteSteps(media);
    TwoNoteFiles(media);
    steps, keyError := exporter.Export(folder, None);
    files := folder.files;
  }

  /**
   * A consumer that stops after the first value, on the same deck: one value
   * counting 1, no error, and only the first note's file in the folder.
   */
  method FirstNoteExport() returns (steps: seq<Progress>, keyError: bool, files: map<string, Bytes>)
    ensures steps == [Progress(1, ["a"])]
    ensures !keyError
    ensures files == map["a" := [1]]
  {
    var media: map<string, Bytes> := map["a" := [1], "b" := [2]];
    var exporter := new MediaExporter(TwoNoteCollection(media), 1, None);
    var folder := new Folder(map[]);
    TwoNoteExporterLists(exporter, media);
    TwoNoteSteps(media);
    assert [["a"], ["b"]][..1] == [["a"]];
    SingleListRun(media);
    steps, keyError := exporter.ExportFirst(folder, None, 1);
    files := folder.files;
  }

  /** A collection whose deck holds notes 1, 2 and 3; note 2 has no field "Front". */
  function GapCollection(media: map<string, Bytes>): Collection {
    Collection(
      d => "Default",
      params => "deck:Default",
      search => [1, 2, 3],
      nid => if nid == 2 then Note(0, [Field("Back", "b")]) else Note(0, [Field("Front", "a")]),
      (mid, text) => [text],
      media)
  }

  /** Restricted to "Front", scanning that deck yields note 1's list and then stops with a KeyError. */
  lemma GapLists(media: map<string, Bytes>)
    ensures NoteLists(GapCollection(media), [1, 2, 3], Some("Front")) == ([["a"]], true)
  {
    var col := GapCollection(media);
    assert col.getNote(1) == Note(0, [Field("Front", "a")]);
    assert col.getNote(2) == Note(0, [Field("Back", "b")]);
    assert ScannedText(col.getNote(1), Some("Front")) == Some("a");
    assert ScannedText(col.getNote(2), Some("Front")) == None;
    assert col.filesInStr(0, "a") == ["a"];
    assert [1, 2, 3][1..] == [2, 3];
    assert [["a"]] + [] == [["a"]];
  }

  /** An exporter over that collection, restricted to "Front": note 1's list, and the KeyError. */
  lemma GapExporterLists(exporter: MediaExporter, media: map<string, Bytes>)
    requires exporter.col == GapCollection(media) && exporter.field == Some("Front")
    ensures exporter.Lists() == [["a"]]
    ensures NoteLists(exporter.col, exporter.NoteIds(), exporter.field).1
  {
    GapLists(media);
    assert exporter.NoteIds() == [1, 2, 3];
  }

  /** Over the one list ["a"], with "a" present: one value counting 1, and "a" written into an empty folder. */
  lemma SingleListRun(media: map<string, Bytes>)
    requires media == map["a" := [1], "b" := [2]]
    ensures Steps([["a"]], None, media) == [Progress(1, ["a"])]
    ensures map[] + Copied(media, Exported(Flatten([["a"]]), None, media)) == map["a" := [1]]
  {
    StepsOfTwo(["a"], [], None, media);
    FlattenPair(["a"], []);
    assert Exported(["a"], None, media) == {"a"};
  }

  /**
   * `export` restricted to the field "Front" on that deck: one value for
   * note 1, the KeyError at note 2, and only note 1's file in the folder.
   */
  method KeyErrorExport() returns (steps: seq<Progress>, keyError: bool, files: map<string, Bytes>)
    ensures steps == [Progress(1, ["a"])]
    ensures keyError
    ensures files == map["a" := [1]]
  {
    var media: map<string, Bytes> := map["a" := [1], "b" := [2]];
    var exporter := new MediaExporter(GapCollection(media), 1, Some("Front"));
    var folder := new Folder(map[]);
    GapExporterLists(exporter, media);
    SingleListRun(media);
    steps, keyError := exporter.Export(folder, None);
    files := folder.files;
  }
}
