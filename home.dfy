/**
 * The home page: the file browser (folders, uploaded files and notes saved
 * as files, moved by drag and drop), its breadcrumb, and the deck list split
 * into active and completed decks.
 */
module Home {
  import opened Wrappers
  import opened Records
  import Text
  import Seqs
  import opened Storage

  // ------------------------------------------------------------ file types

  /** `s.split(sep).pop()`. */
  function LastSegment(s: string, sep: char): string
    decreases |s|
  {
    if s == [] then []
    else if s[|s| - 1] == sep then []
    else LastSegment(s[..|s| - 1], sep) + [s[|s| - 1]]
  }

  /** The last segment is the text after the last separator, or all of `s`
      when it has none. */
  lemma {:induction false} LastSegmentSpec(s: string, sep: char)
    ensures var r := LastSegment(s, sep);
      sep !in r && |r| <= |s| && r == s[|s| - |r|..]
      && (|r| < |s| ==> s[|s| - |r| - 1] == sep)
    decreases |s|
  {
    if s != [] && s[|s| - 1] != sep {
      var init, c := s[..|s| - 1], s[|s| - 1];
      LastSegmentSpec(init, sep);
      var t := LastSegment(init, sep);
      var r := t + [c];
      assert r == LastSegment(s, sep);
      assert s[|s| - |r|..] == init[|init| - |t|..] + [c];
      if |r| < |s| {
        assert s[|s| - |r| - 1] == init[|init| - |t| - 1];
      }
    }
  }

  /** The extension `getFileType` compares: lower-cased. */
  function Extension(fileName: string): string {
    Text.Lower(LastSegment(fileName, '.'))
  }

  /** `getFileType`: pdf, ppt/pptx and xls/xlsx are recognised, anything
      else is "other"; uploads never get the note or deck kinds. */
  function FileType(fileName: string): (k: FileKind)
    ensures k == Pdf <==> Extension(fileName) == "pdf"
    ensures k == Pptx <==> Extension(fileName) == "pptx" || Extension(fileName) == "ppt"
    ensures k == Xlsx <==> Extension(fileName) == "xlsx" || Extension(fileName) == "xls"
    ensures k != NoteKind && k != DeckKind
  {
    var ext := Extension(fileName);
    if ext == "pdf" then Pdf
    else if ext == "pptx" || ext == "ppt" then Pptx
    else if ext == "xlsx" || ext == "xls" then Xlsx
    else OtherKind
  }

  /** Whatever precedes the last dot plays no part: the extension is the
      text after it. */
  lemma ExtensionAfterLastDot(base: string, ext: string)
    requires '.' !in ext
    ensures LastSegment(base + "." + ext, '.') == ext
  {
    var s := base + "." + ext;
    LastSegmentSpec(s, '.');
    assert s[|base|] == '.';
    assert s[|s| - |ext|..] == ext;
  }

  lemma LowerSnoc(a: string, c: char)
    ensures Text.Lower(a + [c]) == Text.Lower(a) + [Text.LowerChar(c)]
  {
    var l, r := Text.Lower(a + [c]), Text.Lower(a) + [Text.LowerChar(c)];
    assert |l| == |r|;
    forall i | 0 <= i < |l|
      ensures l[i] == r[i]
    {
      if i < |a| {
        assert (a + [c])[i] == a[i];
      }
    }
  }

  lemma {:induction false} LowerLastSegment(s: string)
    ensures LastSegment(Text.Lower(s), '.') == Text.Lower(LastSegment(s, '.'))
    decreases |s|
  {
    if s != [] {
      var init, c := s[..|s| - 1], s[|s| - 1];
      var t := Text.Lower(s);
      assert s == init + [c];
      LowerSnoc(init, c);
      assert t[..|t| - 1] == Text.Lower(init);
      assert t[|t| - 1] == Text.LowerChar(c);
      if c == '.' {
        assert LastSegment(t, '.') == [];
      } else {
        LowerLastSegment(init);
        LowerSnoc(LastSegment(init, '.'), c);
        assert LastSegment(t, '.') == LastSegment(Text.Lower(init), '.') + [Text.LowerChar(c)];
      }
    }
  }

  lemma LowerIdempotent(s: string)
    ensures Text.Lower(Text.Lower(s)) == Text.Lower(s)
  {
  }

  /** The detection ignores letter case: "NOTES.PDF" is a pdf. */
  lemma FileTypeIgnoresCase(fileName: string)
    ensures FileType(Text.Lower(fileName)) == FileType(fileName)
  {
    LowerLastSegment(fileName);
    LowerIdempotent(LastSegment(fileName, '.'));
  }

  // ------------------------------------------------------------ deck colour

  const DeckColors: seq<string> :=
    ["#FF6B6B", "#4ECDC4", "#45B7D1", "#FFA07A", "#98D8C8", "#F7DC6F", "#FFD93D", "#6BCF7F"]

  /** The sum of the character codes, accumulated from the left. */
  function CodeSum(s: string): nat {
    if s == [] then 0 else CodeSum(s[..|s| - 1]) + s[|s| - 1] as int
  }

  /** `getDeckColor`: the palette entry at the code sum modulo the palette
      size, always one of the eight colours. */
  function DeckColor(name: string): (c: string)
    ensures c in DeckColors
    ensures c == DeckColors[CodeSum(name) % 8]
  {
    DeckColors[CodeSum(name) % |DeckColors|]
  }

  lemma {:induction false} CodeSumAppend(a: string, b: string)
    ensures CodeSum(a + b) == CodeSum(a) + CodeSum(b)
    decreases |b|
  {
    if b == [] {
      assert a + b == a;
    } else {
      assert (a + b)[..|a + b| - 1] == a + b[..|b| - 1];
      CodeSumAppend(a, b[..|b| - 1]);
    }
  }

  /** The colour depends only on which characters the name has, not on
      their order. */
  lemma DeckColorOrderFree(a: string, b: string)
    ensures DeckColor(a + b) == DeckColor(b + a)
  {
    CodeSumAppend(a, b);
    CodeSumAppend(b, a);
  }

  // ------------------------------------------------------------ size label

  datatype SizeUnit = Bytes | KB | MB

  /** `formatFileSize` before the one-decimal rendering: the amount and the
      unit shown. */
  datatype SizeLabel = SizeLabel(amount: real, unit: SizeUnit)

  function UnitBytes(u: SizeUnit): real {
    match u
    case Bytes => 1.0
    case KB => 1024.0
    case MB => 1048576.0
  }

  function FileSizeLabel(bytes: int): (r: SizeLabel)
    ensures r.unit == Bytes <==> bytes < 1024
    ensures r.unit == KB <==> 1024 <= bytes < 1048576
    ensures r.amount * UnitBytes(r.unit) == bytes as real
    ensures r.unit != Bytes ==> r.amount >= 1.0
    ensures r.unit == KB ==> r.amount < 1024.0
  {
    if bytes < 1024 then SizeLabel(bytes as real, Bytes)
    else if bytes < 1048576 then SizeLabel(bytes as real / 1024.0, KB)
    else SizeLabel(bytes as real / 1048576.0, MB)
  }

  // ------------------------------------------------------- active/completed

  datatype DeckWithStatus = DeckWithStatus(deck: Deck, isCompleted: bool, completedQuiz: Option<Quiz>)

  predicate CompletesDeck(q: Quiz, deckId: string) {
    q.deckId == deckId && Truthy(q.completedAt)
  }

  /** A deck with the first of the given quizzes that completed it. */
  function WithStatus(deck: Deck, quizzes: seq<Quiz>): (r: DeckWithStatus)
    ensures r.deck == deck
    ensures r.isCompleted <==> exists q :: q in quizzes && CompletesDeck(q, deck.id)
    ensures r.isCompleted <==> r.completedQuiz.Some?
    ensures r.completedQuiz.Some? ==> r.completedQuiz.value in quizzes && CompletesDeck(r.completedQuiz.value, deck.id)
  {
    var found := Seqs.Find(quizzes, (q: Quiz) => CompletesDeck(q, deck.id));
    DeckWithStatus(deck, found.Some?, found)
  }

  /** `loadData`'s deck list: the user's decks in stored order, each marked
      completed iff one of the user's quizzes for it has `completedAt`. */
  function DecksWithStatus(decks: seq<Deck>, quizzes: seq<Quiz>, userId: string): (r: seq<DeckWithStatus>)
    ensures |r| == |Seqs.Filter(decks, (d: Deck) => d.userId == userId)|
    ensures forall i :: 0 <= i < |r| ==>
      r[i].deck == Seqs.Filter(decks, (d: Deck) => d.userId == userId)[i]
      && r[i].deck.userId == userId
      && (r[i].isCompleted <==>
            exists q :: q in quizzes && q.userId == userId && CompletesDeck(q, r[i].deck.id))
  {
    var mine := Seqs.Filter(decks, (d: Deck) => d.userId == userId);
    var myQuizzes := Seqs.Filter(quizzes, (q: Quiz) => q.userId == userId);
    seq(|mine|, i requires 0 <= i < |mine| => WithStatus(mine[i], myQuizzes))
  }

  /** The decks shown on a tab: the completed ones, or the rest. */
  function TabDecks(all: seq<DeckWithStatus>, completedTab: bool): seq<DeckWithStatus> {
    Seqs.Filter(all, (d: DeckWithStatus) => d.isCompleted == completedTab)
  }

  /** The two tabs partition the list: every deck is on exactly one of them,
      as often as it occurs, and each tab shows only its kind. */
  lemma TabsPartition(all: seq<DeckWithStatus>)
    ensures multiset(TabDecks(all, true)) + multiset(TabDecks(all, false)) == multiset(all)
    ensures forall d :: d in TabDecks(all, true) ==> d.isCompleted
    ensures forall d :: d in TabDecks(all, false) ==> !d.isCompleted
  {
    var pc := (d: DeckWithStatus) => d.isCompleted == true;
    var pa := (d: DeckWithStatus) => d.isCompleted == false;
    Seqs.FilterMultisetAll(all, pc);
    Seqs.FilterMultisetAll(all, pa);
    assert forall d :: multiset(TabDecks(all, true))[d] + multiset(TabDecks(all, false))[d] == multiset(all)[d];
  }

  // ---------------------------------------------------------------- breadcrumb

  /** Every folder with a parent is deeper than its parent: the parent
      links contain no cycle. */
  ghost predicate DepthRanked(folders: seq<Folder>, depth: map<string, nat>) {
    forall f :: f in folders && f.parentId.Some? ==>
      f.id in depth && f.parentId.value in depth && depth[f.parentId.value] < depth[f.id]
  }

  /** A truthy parent link. */
  predicate HasParent(f: Folder) {
    f.parentId.Some? && f.parentId.value != ""
  }

  /** The folder `loadData` steps to from `f`: its parent, when the link is
      truthy and the parent can be found. */
  function Up(folders: seq<Folder>, f: Folder): Option<Folder> {
    if HasParent(f) then GetFolder(folders, f.parentId.value) else None
  }

  /** Stored folders, each found as the parent of the next. */
  ghost predicate Chain(folders: seq<Folder>, path: seq<Folder>) {
    (forall k :: 0 <= k < |path| ==> path[k] in folders)
    && (forall k :: 1 <= k < |path| ==> Up(folders, path[k]) == Some(path[k - 1]))
  }

  /** `path` is a breadcrumb: a chain whose first folder has no parent that
      can be found. */
  ghost predicate Breadcrumb(folders: seq<Folder>, path: seq<Folder>) {
    Chain(folders, path) && (|path| > 0 ==> Up(folders, path[0]).None?)
  }

  function StartFolder(folders: seq<Folder>, currentFolderId: Option<string>): Option<Folder> {
    if currentFolderId.Some? && currentFolderId.value != "" then GetFolder(folders, currentFolderId.value)
    else None
  }

  function Measure(current: Option<Folder>, depth: map<string, nat>): nat {
    if current.None? then 0
    else if current.value.id in depth then depth[current.value.id] + 2
    else 1
  }

  /** Stepping up lowers the measure: the parent is less deep. */
  lemma UpDescends(folders: seq<Folder>, depth: map<string, nat>, here: Folder)
    requires DepthRanked(folders, depth) && here in folders
    ensures Measure(Up(folders, here), depth) < Measure(Some(here), depth)
  {
  }

  /** Prepending the folder a chain's first folder steps up to extends it. */
  lemma ChainCons(folders: seq<Folder>, here: Folder, path: seq<Folder>)
    requires Chain(folders, path) && here in folders
    requires path != [] ==> Up(folders, path[0]) == Some(here)
    ensures Chain(folders, [here] + path)
  {
    var p := [here] + path;
    forall k | 1 <= k < |p| ensures Up(folders, p[k]) == Some(p[k - 1]) {
      assert p[k] == path[k - 1];
      if k > 1 {
        assert p[k - 1] == path[k - 2];
      }
    }
  }

  /** `loadData`'s folder path: from the current folder, prepend each
      folder and step to its parent until no parent is found. */
  method FolderPath(folders: seq<Folder>, currentFolderId: Option<string>, ghost depth: map<string, nat>)
    returns (path: seq<Folder>)
    requires DepthRanked(folders, depth)
    ensures path == [] <==> StartFolder(folders, currentFolderId).None?
    ensures path != [] ==> path[|path| - 1] == StartFolder(folders, currentFolderId).value
    ensures Breadcrumb(folders, path)
  {
    var start := StartFolder(folders, currentFolderId);
    var current := start;
    path := [];
    while current.Some?
      invariant current.Some? ==> current.value in folders
      invariant path == [] ==> current == start
      invariant path != [] ==> start.Some? && path[|path| - 1] == start.value
      invariant path != [] ==> current == Up(folders, path[0])
      invariant Chain(folders, path)
      decreases Measure(current, depth)
    {
      var here := current.value;
      ChainCons(folders, here, path);
      UpDescends(folders, depth, here);
      path := [here] + path;
      current := Up(folders, here);
    }
  }

  /** Dropping the last folder of a chain leaves a chain with the same start. */
  lemma ChainInit(folders: seq<Folder>, p: seq<Folder>)
    requires Breadcrumb(folders, p) && |p| > 1
    ensures Breadcrumb(folders, p[..|p| - 1])
  {
    var q := p[..|p| - 1];
    assert forall k :: 0 <= k < |q| ==> q[k] == p[k];
  }

  /** A breadcrumb is fixed by the folder it ends at. */
  lemma {:induction false} BreadcrumbUnique(folders: seq<Folder>, p: seq<Folder>, q: seq<Folder>)
    requires Breadcrumb(folders, p) && Breadcrumb(folders, q)
    requires p != [] && q != [] && p[|p| - 1] == q[|q| - 1]
    ensures p == q
    decreases |p|
  {
    var last := p[|p| - 1];
    if |p| > 1 && |q| > 1 {
      var p', q' := p[..|p| - 1], q[..|q| - 1];
      CrumbStep(folders, p, |p| - 1);
      CrumbStep(folders, q, |q| - 1);
      ChainInit(folders, p);
      ChainInit(folders, q);
      BreadcrumbUnique(folders, p', q');
      assert p == p' + [last];
      assert q == q' + [last];
    } else if |q| > 1 {
      CrumbStep(folders, q, |q| - 1);
    } else if |p| > 1 {
      CrumbStep(folders, p, |p| - 1);
    }
  }

  lemma CrumbStep(folders: seq<Folder>, path: seq<Folder>, k: int)
    requires Chain(folders, path) && 1 <= k < |path|
    ensures Up(folders, path[k]) == Some(path[k - 1])
  {
  }

  // ---------------------------------------------------------------- dropping

  datatype DragKind = FileDrag | FolderDrag | NoteDrag

  datatype DragItem = DragItem(kind: DragKind, id: string)

  /** A dropped file moves only when it changes parent. */
  predicate FileMoves(f: FileItem, target: Option<string>) {
    f.parentId != target
  }

  /** A dropped folder moves only when it changes parent and is not dropped
      onto itself. */
  predicate FolderMoves(f: Folder, target: Option<string>) {
    f.parentId != target && target != Some(f.id)
  }

  /** `note.handwriting || note.content || ''`. */
  function NoteData(note: Note): string {
    if note.handwriting.Some? && note.handwriting.value != "" then note.handwriting.value else note.content
  }

  /** A note with a drawing is stored, and sized, by the drawing whatever its
      text says; a note without one, or with an empty one, by its text. */
  lemma NoteDataChoice(note: Note, h: string, c: string)
    ensures h != "" ==> NoteData(note.(handwriting := Some(h), content := c)) == h
    ensures h != "" ==> NoteFile(note.(handwriting := Some(h), content := c), None, "", 0, "").size == |h|
    ensures NoteData(note.(handwriting := None)) == note.content
    ensures NoteData(note.(handwriting := Some(""))) == note.content
  {
  }

  /** The file a new note drop creates. */
  function NoteFile(note: Note, target: Option<string>, userId: string, now: int, serialized: string): (f: FileItem)
    ensures f.id == "file-note-" + note.id && f.kind == NoteKind && f.noteId == Some(note.id)
    ensures f.name == (if note.title == "" then "Untitled Note" else note.title) + ".note"
    ensures f.size == |NoteData(note)| && f.data == serialized
    ensures f.parentId == target && f.userId == userId && f.createdAt == now && f.updatedAt == now
  {
    FileItem("file-note-" + note.id, (if note.title == "" then "Untitled Note" else note.title) + ".note",
             NoteKind, "application/json", serialized, |NoteData(note)|, target, userId, now, now,
             Some(note.id), None)
  }

  /** The file a note drop saves: the user's root file already linked to the
      note, moved, or else a new note file. */
  function DroppedNoteFile(files: seq<FileItem>, note: Note, target: Option<string>, userId: string,
                           now: int, serialized: string): (f: FileItem)
    ensures f.noteId == Some(note.id) && f.parentId == target && f.updatedAt == now
    ensures userId != "" ==> f.userId == userId
    ensures var linked := Seqs.Find(GetFiles(files, userId, None), (g: FileItem) => g.noteId == Some(note.id));
      if linked.Some? then f == linked.value.(parentId := target, updatedAt := now)
      else f == NoteFile(note, target, userId, now, serialized)
  {
    var roots := GetFiles(files, userId, None);
    var linked := Seqs.Find(roots, (g: FileItem) => g.noteId == Some(note.id));
    if linked.Some? then
      assert userId != "" ==> linked.value.userId == userId;
      assert linked.value in files;
      linked.value.(parentId := target, updatedAt := now)
    else NoteFile(note, target, userId, now, serialized)
  }

  /** Storing a file whose owner and parent match a listing puts it in
      that listing, and every file with another id is still stored. */
  lemma UpsertListed(files: seq<FileItem>, f: FileItem, userId: string, target: Option<string>)
    requires f.parentId == target && (userId != "" ==> f.userId == userId)
    ensures var after := Seqs.Upsert(files, f, FileId);
      f in GetFiles(after, userId, target)
      && forall g :: g in files && g.id != f.id ==> g in after
  {
    Seqs.UpsertFrame(files, f, FileId);
    var after := Seqs.Upsert(files, f, FileId);
    forall g | g in files && g.id != f.id
      ensures g in after
    {
      var j :| 0 <= j < |files| && files[j] == g;
      assert after[j] == g;
    }
  }

  /** After a note drop the note's file is listed in the target folder, and
      every file with another id is still stored. */
  lemma DroppedNoteListed(files: seq<FileItem>, note: Note, target: Option<string>, userId: string,
                          now: int, serialized: string)
    ensures var f := DroppedNoteFile(files, note, target, userId, now, serialized);
      var after := Seqs.Upsert(files, f, FileId);
      f in GetFiles(after, userId, target)
      && forall g :: g in files && g.id != f.id ==> g in after
  {
    var f := DroppedNoteFile(files, note, target, userId, now, serialized);
    UpsertListed(files, f, userId, target);
  }

  /** A moved file is listed in its target folder and no other file moves. */
  lemma MovedFileListed(files: seq<FileItem>, f: FileItem, target: Option<string>, now: int)
    ensures var m := f.(parentId := target, updatedAt := now);
      var after := Seqs.Upsert(files, m, FileId);
      m in GetFiles(after, f.userId, target)
      && forall g :: g in files && g.id != f.id ==> g in after
  {
    UpsertListed(files, f.(parentId := target, updatedAt := now), f.userId, target);
  }

  // ---------------------------------------------------------------- quizzes

  /** A quiz `handleRedoQuiz` means to discard: the current user's completed
      quiz for the deck. */
  predicate RedoTarget(q: Quiz, deckId: string, current: Option<User>) {
    current.Some? && q.userId == current.value.id && CompletesDeck(q, deckId)
  }

  function RedoTargets(quizzes: seq<Quiz>, deckId: string, current: Option<User>): seq<Quiz> {
    Seqs.Filter(quizzes, (q: Quiz) => RedoTarget(q, deckId, current))
  }

  /** With two completed quizzes for the deck, the stored list keeps the
      first: each write starts again from the list read on entry. */
  lemma RedoKeepsEarlier(quizzes: seq<Quiz>, deckId: string, current: Option<User>)
    requires |RedoTargets(quizzes, deckId, current)| >= 2
    requires RedoTargets(quizzes, deckId, current)[0].id
          != RedoTargets(quizzes, deckId, current)[|RedoTargets(quizzes, deckId, current)| - 1].id
    ensures var targets := RedoTargets(quizzes, deckId, current);
      var stored := Seqs.RemoveKey(quizzes, QuizId, targets[|targets| - 1].id);
      targets[0] in stored && RedoTarget(targets[0], deckId, current)
  {
    var targets := RedoTargets(quizzes, deckId, current);
    assert targets[0] in quizzes;
  }

  /** The corrected redo leaves no completed quiz of the user for the deck
      and keeps every other quiz. */
  lemma RedoAllClears(quizzes: seq<Quiz>, deckId: string, current: Option<User>)
    ensures var kept := Seqs.Filter(quizzes, (q: Quiz) => !RedoTarget(q, deckId, current));
      (forall q :: q in kept ==> !RedoTarget(q, deckId, current))
      && forall q :: q in quizzes && !RedoTarget(q, deckId, current) ==> q in kept
  {
    var kept := Seqs.Filter(quizzes, (q: Quiz) => !RedoTarget(q, deckId, current));
    forall q | q in quizzes && !RedoTarget(q, deckId, current)
      ensures q in kept
    {
      var j :| 0 <= j < |quizzes| && quizzes[j] == q;
    }
  }

  /** `handleRedoQuiz` as written: for each completed quiz it writes the list
      read on entry minus that quiz, so the last write wins. */
  method RedoQuiz(store: Store, deckId: string, current: Option<User>)
    modifies store`quizzes
    ensures var targets := RedoTargets(old(store.quizzes), deckId, current);
      store.quizzes == if targets == [] then old(store.quizzes)
                       else Seqs.RemoveKey(old(store.quizzes), QuizId, targets[|targets| - 1].id)
  {
    var all := store.quizzes;
    var targets := RedoTargets(all, deckId, current);
    for k := 0 to |targets|
      invariant k == 0 ==> store.quizzes == all
      invariant k > 0 ==> store.quizzes == Seqs.RemoveKey(all, QuizId, targets[k - 1].id)
    {
      store.quizzes := Seqs.RemoveKey(all, QuizId, targets[k].id);
    }
  }

  /** `handleRedoQuiz` as evidently intended: every completed quiz of the
      user for the deck is discarded. */
  method RedoQuizAll(store: Store, deckId: string, current: Option<User>)
    modifies store`quizzes
    ensures store.quizzes == Seqs.Filter(old(store.quizzes), (q: Quiz) => !RedoTarget(q, deckId, current))
  {
    store.quizzes := Seqs.Filter(store.quizzes, (q: Quiz) => !RedoTarget(q, deckId, current));
  }

  // ---------------------------------------------------------------- page

  class HomePage {
    const store: Store
    var dragged: Option<DragItem>
    var currentFolderId: Option<string>

    constructor(store: Store)
      ensures this.store == store && dragged == None && currentFolderId == None
    {
      this.store := store;
      dragged := None;
      currentFolderId := None;
    }

    /** Opening a folder from the grid or the breadcrumb; `None` is the root. */
    method OpenFolder(folderId: Option<string>)
      modifies this`currentFolderId
      ensures currentFolderId == folderId
    {
      currentFolderId := folderId;
    }

    method DragStart(kind: DragKind, id: string)
      modifies this`dragged
      ensures dragged == Some(DragItem(kind, id))
    {
      dragged := Some(DragItem(kind, id));
    }

    /** The note part of a drop: the note's file is moved to, or created in,
        the target; an unknown note changes nothing. */
    method SaveNoteAt(noteId: string, target: Option<string>, user: User, now: int, serialize: Note -> string)
      modifies store`files
      ensures var note := GetNote(old(store.notes), noteId);
        store.files == if note.None? then old(store.files)
          else Seqs.Upsert(old(store.files),
                           DroppedNoteFile(old(store.files), note.value, target, user.id, now, serialize(note.value)),
                           FileId)
    {
      var note := GetNote(store.notes, noteId);
      if note.Some? {
        var f := DroppedNoteFile(store.files, note.value, target, user.id, now, serialize(note.value));
        store.SaveFile(f);
      }
    }

    /** `handleDrop(target)`. A folder is saved through `saveFolder`, which
        keeps only the root folders and the moved one. */
    method Drop(target: Option<string>, current: Option<User>, now: int, serialize: Note -> string)
      modifies this`dragged, store`files, store`folders
      ensures dragged == None
      ensures old(dragged).None? ==> store.files == old(store.files) && store.folders == old(store.folders)
      ensures old(dragged).Some? && old(dragged).value.kind == FileDrag ==>
        store.folders == old(store.folders)
        && var f := GetFile(old(store.files), old(dragged).value.id);
           store.files == if f.Some? && FileMoves(f.value, target)
                          then Seqs.Upsert(old(store.files), f.value.(parentId := target, updatedAt := now), FileId)
                          else old(store.files)
      ensures old(dragged).Some? && old(dragged).value.kind == FolderDrag ==>
        store.files == old(store.files)
        && var f := GetFolder(old(store.folders), old(dragged).value.id);
           store.folders == if f.Some? && FolderMoves(f.value, target)
                            then Seqs.Upsert(GetFolders(old(store.folders), "", None),
                                             f.value.(parentId := target, updatedAt := now), FolderId)
                            else old(store.folders)
      ensures old(dragged).Some? && old(dragged).value.kind == NoteDrag ==>
        store.folders == old(store.folders)
        && var note := GetNote(old(store.notes), old(dragged).value.id);
           store.files == if note.None? || current.None? then old(store.files)
             else Seqs.Upsert(old(store.files),
                              DroppedNoteFile(old(store.files), note.value, target, current.value.id, now,
                                              serialize(note.value)),
                              FileId)
    {
      if dragged.Some? {
        var item := dragged.value;
        if item.kind == FileDrag {
          var f := GetFile(store.files, item.id);
          if f.Some? && FileMoves(f.value, target) {
            store.SaveFile(f.value.(parentId := target, updatedAt := now));
          }
        } else if item.kind == FolderDrag {
          var f := GetFolder(store.folders, item.id);
          if f.Some? && FolderMoves(f.value, target) {
            store.SaveFolder(f.value.(parentId := target, updatedAt := now));
          }
        } else if current.Some? {
          SaveNoteAt(item.id, target, current.value, now, serialize);
        }
      }
      dragged := None;
    }

    /** A drop on a folder tile, on the drop zone or on the window: a note
        dragged from the notes page (a non-empty id in the drag data) is
        saved at the target; anything else is an ordinary `handleDrop`.
        The window listener hands over the open folder. */
    method DropFromPage(noteId: string, target: Option<string>, current: Option<User>, now: int,
                        serialize: Note -> string)
      modifies this`dragged, store`files, store`folders
      ensures noteId != "" && current.Some? ==>
        dragged == old(dragged) && store.folders == old(store.folders)
        && var note := GetNote(old(store.notes), noteId);
           store.files == if note.None? then old(store.files)
             else Seqs.Upsert(old(store.files),
                              DroppedNoteFile(old(store.files), note.value, target, current.value.id, now,
                                              serialize(note.value)),
                              FileId)
      ensures !(noteId != "" && current.Some?) ==> dragged == None
    {
      if noteId != "" && current.Some? {
        SaveNoteAt(noteId, target, current.value, now, serialize);
      } else {
        Drop(target, current, now, serialize);
      }
    }

    /** `handleCreateFolder`: a blank name or a missing user does nothing;
        otherwise a folder with the trimmed name is saved in the open folder
        through `saveFolder`. */
    method CreateFolder(name: string, current: Option<User>, now: int)
      modifies store`folders
      ensures Text.Trim(name) == "" || current.None? ==> store.folders == old(store.folders)
      ensures Text.Trim(name) != "" && current.Some? ==>
        store.folders == Seqs.Upsert(GetFolders(old(store.folders), "", None),
          Folder("folder-" + Text.IntToString(now), Text.Trim(name), currentFolderId, current.value.id, now, now),
          FolderId)
    {
      if Text.Trim(name) != "" && current.Some? {
        store.SaveFolder(Folder("folder-" + Text.IntToString(now), Text.Trim(name), currentFolderId,
                                current.value.id, now, now));
      }
    }

    /** `handleFileUpload` once the picked file has been read: the file is
        stored in the open folder with the kind its name gives. */
    method UploadFile(name: string, mimeType: string, size: int, data: string, current: Option<User>, now: int)
      modifies store`files
      ensures current.None? ==> store.files == old(store.files)
      ensures current.Some? ==>
        store.files == Seqs.Upsert(old(store.files),
          FileItem("file-" + Text.IntToString(now), name, FileType(name), mimeType, data, size,
                   currentFolderId, current.value.id, now, now, None, None),
          FileId)
    {
      if current.Some? {
        store.SaveFile(FileItem("file-" + Text.IntToString(now), name, FileType(name), mimeType, data, size,
                                currentFolderId, current.value.id, now, now, None, None));
      }
    }
  }
}
