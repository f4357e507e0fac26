/**
 * The browser-local record store. Each storage key holds one list of records;
 * the `Store` class keeps one sequence field per key and its methods rewrite
 * those fields the way the `save*` and `delete*` operations rewrite the
 * stored lists. The read operations only filter and search what was read, so
 * they are functions over the stored sequences.
 *
 * A user id or a university name of `""` stands for an absent (falsy)
 * argument; a missing `parentId` is `None`.
 */
module Storage {
  import opened Wrappers
  import opened Records
  import Seqs
  import Sorting
  import PublicDecks

  // ---------------------------------------------------------------- reads

  /** `getDecks(userId?)`: all decks, or only the given user's when the id is truthy. */
  function GetDecks(decks: seq<Deck>, userId: string): (r: seq<Deck>)
    ensures userId == "" ==> r == decks
    ensures forall d :: d in r <==> d in decks && (userId == "" || d.userId == userId)
  {
    if userId != "" then Seqs.Filter(decks, (d: Deck) => d.userId == userId) else decks
  }

  /** `getNotes(userId?)`. */
  function GetNotes(notes: seq<Note>, userId: string): (r: seq<Note>)
    ensures userId == "" ==> r == notes
    ensures forall n :: n in r <==> n in notes && (userId == "" || n.userId == userId)
  {
    if userId != "" then Seqs.Filter(notes, (n: Note) => n.userId == userId) else notes
  }

  /** `getNote(id)`: the first note with that id. */
  function GetNote(notes: seq<Note>, noteId: string): (r: Option<Note>)
    ensures r.None? <==> forall j :: 0 <= j < |notes| ==> notes[j].id != noteId
    ensures r.Some? ==> r.value in notes && r.value.id == noteId
  {
    Seqs.Find(notes, (n: Note) => n.id == noteId)
  }

  /** `getCurrentUser()`: nothing when no id is stored, otherwise the first
      user with the stored id, if any. */
  function GetCurrentUser(users: seq<User>, currentUserId: string): (r: Option<User>)
    ensures currentUserId == "" ==> r.None?
    ensures currentUserId != "" ==>
      (r.None? <==> forall j :: 0 <= j < |users| ==> users[j].id != currentUserId)
    ensures r.Some? ==> r.value in users && r.value.id == currentUserId
  {
    if currentUserId == "" then None else Seqs.Find(users, (u: User) => u.id == currentUserId)
  }

  /** `getQuiz(id)`. */
  function GetQuiz(quizzes: seq<Quiz>, quizId: string): (r: Option<Quiz>)
    ensures r.None? <==> forall j :: 0 <= j < |quizzes| ==> quizzes[j].id != quizId
    ensures r.Some? ==> r.value in quizzes && r.value.id == quizId
  {
    Seqs.Find(quizzes, (q: Quiz) => q.id == quizId)
  }

  /** `getPublicDecks()`: the decks flagged `isPublic === true`. */
  function GetPublicDecks(decks: seq<Deck>): (r: seq<Deck>)
    ensures forall d :: d in r <==> d in decks && d.isPublic == Some(true)
  {
    Seqs.Filter(decks, (d: Deck) => d.isPublic == Some(true))
  }

  /** `getPublicQuizzes()`: the quizzes owned by the pseudo-user `public`. */
  function GetPublicQuizzes(quizzes: seq<Quiz>): (r: seq<Quiz>)
    ensures forall q :: q in r <==> q in quizzes && q.userId == "public"
  {
    Seqs.Filter(quizzes, (q: Quiz) => q.userId == "public")
  }

  /** Whether a `getFiles` call filters by parent: when a parent is given, and
      also when only a truthy user id is given (then it lists the root). */
  predicate FiltersByParent(userId: string, parentId: Option<string>) {
    parentId.Some? || userId != ""
  }

  /** `getFiles(userId?, parentId?)`. */
  function GetFiles(files: seq<FileItem>, userId: string, parentId: Option<string>): (r: seq<FileItem>)
    ensures userId == "" && parentId.None? ==> r == files
    ensures forall f :: f in r <==>
      f in files
      && (userId == "" || f.userId == userId)
      && (!FiltersByParent(userId, parentId) || f.parentId == parentId)
  {
    var owned := if userId != "" then Seqs.Filter(files, (f: FileItem) => f.userId == userId) else files;
    if FiltersByParent(userId, parentId) then Seqs.Filter(owned, (f: FileItem) => f.parentId == parentId)
    else owned
  }

  /** `getFile(id)`. */
  function GetFile(files: seq<FileItem>, fileId: string): (r: Option<FileItem>)
    ensures r.None? <==> forall j :: 0 <= j < |files| ==> files[j].id != fileId
    ensures r.Some? ==> r.value in files && r.value.id == fileId
  {
    Seqs.Find(files, (f: FileItem) => f.id == fileId)
  }

  /** `getFolders(userId?, parentId?)`: unlike `getFiles`, the parent filter
      always applies, so an absent parent means "root folders only". */
  function GetFolders(folders: seq<Folder>, userId: string, parentId: Option<string>): (r: seq<Folder>)
    ensures forall f :: f in r <==>
      f in folders && (userId == "" || f.userId == userId) && f.parentId == parentId
  {
    var owned := if userId != "" then Seqs.Filter(folders, (f: Folder) => f.userId == userId) else folders;
    Seqs.Filter(owned, (f: Folder) => f.parentId == parentId)
  }

  /** `getFolder(id)`: a raw read, so nested folders are found too. */
  function GetFolder(folders: seq<Folder>, folderId: string): (r: Option<Folder>)
    ensures r.None? <==> forall j :: 0 <= j < |folders| ==> folders[j].id != folderId
    ensures r.Some? ==> r.value in folders && r.value.id == folderId
  {
    Seqs.Find(folders, (f: Folder) => f.id == folderId)
  }

  // ---------------------------------------------------------- leaderboard

  /** The users after `addPoints`: the first user with the id gains exactly
      `points`, nobody else changes, and an unknown id changes nothing. */
  function WithPoints(users: seq<User>, userId: string, points: int): (r: seq<User>)
    ensures (forall j :: 0 <= j < |users| ==> users[j].id != userId) ==> r == users
    ensures forall i :: Seqs.FirstWithKey(users, UserId, userId, i) ==>
      r == users[i := users[i].(points := users[i].points + points)]
  {
    var i := Seqs.FindIndex(users, (u: User) => u.id == userId);
    if i >= 0 then
      assert Seqs.FirstWithKey(users, UserId, userId, i);
      users[i := users[i].(points := users[i].points + points)]
    else users
  }

  /** The entry written for a user before ranking. */
  function EntryOf(u: User): (e: LeaderboardEntry)
    ensures e.userId == u.id && e.userName == u.name && e.university == u.university
    ensures e.points == u.points && e.rank == 0
  {
    LeaderboardEntry(u.id, u.name, u.university, u.points, 0)
  }

  /** `users.map(...)`: one unranked entry per user, in user order. */
  function Entries(users: seq<User>): (r: seq<LeaderboardEntry>)
    ensures |r| == |users|
    ensures forall k :: 0 <= k < |users| ==> r[k] == EntryOf(users[k])
  {
    if users == [] then [] else [EntryOf(users[0])] + Entries(users[1..])
  }

  /** Numbers the entries `start`, `start + 1`, ... in list order. */
  function Ranked(es: seq<LeaderboardEntry>, start: int): (r: seq<LeaderboardEntry>)
    ensures |r| == |es|
    ensures forall k :: 0 <= k < |es| ==> r[k] == es[k].(rank := start + k)
  {
    if es == [] then [] else [es[0].(rank := start)] + Ranked(es[1..], start + 1)
  }

  /** The list `updateLeaderboard` stores: the users' entries sorted by points
      (highest first, ties in user order) and ranked 1..n. */
  function Leaderboard(users: seq<User>): seq<LeaderboardEntry> {
    Ranked(Sorting.SortDesc(Entries(users), EntryPoints), 1)
  }

  /** The entries with their rank cleared. */
  function Unranked(es: seq<LeaderboardEntry>): (r: seq<LeaderboardEntry>)
    ensures |r| == |es|
    ensures forall k :: 0 <= k < |es| ==> r[k] == es[k].(rank := 0)
  {
    if es == [] then [] else [es[0].(rank := 0)] + Unranked(es[1..])
  }

  /** The stored leaderboard has one entry per user, ordered by non-increasing
      points, and ranks 1..n in list order. */
  lemma LeaderboardShape(users: seq<User>)
    ensures |Leaderboard(users)| == |users|
    ensures forall k :: 0 <= k < |users| ==> Leaderboard(users)[k].rank == k + 1
    ensures Sorting.SortedDesc(Leaderboard(users), EntryPoints)
    ensures multiset(Unranked(Leaderboard(users))) == multiset(Entries(users))
  {
    var entries := Entries(users);
    var sorted := Sorting.SortDesc(entries, EntryPoints);
    var board := Ranked(sorted, 1);
    assert board == Leaderboard(users);
    RankingKeepsOrder(sorted, 1);
    SortedUnranked(entries, sorted);
    assert Unranked(board) == sorted;
  }

  /** Numbering entries changes no points, so it keeps their order. */
  lemma RankingKeepsOrder(es: seq<LeaderboardEntry>, start: int)
    requires Sorting.SortedDesc(es, EntryPoints)
    ensures Sorting.SortedDesc(Ranked(es, start), EntryPoints)
  {
    var r := Ranked(es, start);
    forall i, j | 0 <= i < j < |r| ensures EntryPoints(r[i]) >= EntryPoints(r[j]) {
      assert r[i].points == es[i].points && r[j].points == es[j].points;
    }
  }

  /** A reordering of unranked entries is itself unranked. */
  lemma SortedUnranked(entries: seq<LeaderboardEntry>, sorted: seq<LeaderboardEntry>)
    requires forall k :: 0 <= k < |entries| ==> entries[k].rank == 0
    requires multiset(sorted) == multiset(entries)
    ensures forall k :: 0 <= k < |sorted| ==> sorted[k].rank == 0
  {
    forall k | 0 <= k < |sorted|
      ensures sorted[k].rank == 0
    {
      assert sorted[k] in multiset(entries);
      var j :| 0 <= j < |entries| && entries[j] == sorted[k];
    }
  }

  /** `getLeaderboard(university?)`: the stored entries of that university
      (or all of them for a falsy argument), unchanged and sorted by points. */
  function GetLeaderboard(entries: seq<LeaderboardEntry>, university: string): (r: seq<LeaderboardEntry>)
    ensures Sorting.SortedDesc(r, EntryPoints)
    ensures forall e ::
      multiset(r)[e] == if university == "" || e.university == university then multiset(entries)[e] else 0
  {
    var p := (e: LeaderboardEntry) => e.university == university;
    var kept := if university != "" then Seqs.Filter(entries, p) else entries;
    Seqs.FilterMultisetAll(entries, p);
    Sorting.SortDesc(kept, EntryPoints)
  }

  /** Every folder with a parent is ranked strictly below its parent: the
      parent links contain no cycle. */
  ghost predicate Acyclic(folders: seq<Folder>, rank: map<string, nat>) {
    forall f :: f in folders && f.parentId.Some? ==>
      f.id in rank && f.parentId.value in rank && rank[f.id] < rank[f.parentId.value]
  }

  ghost predicate ParentIn(parentId: Option<string>, ids: set<string>) {
    parentId.Some? && parentId.value in ids
  }

  /** Every folder whose parent is in `ids` is itself in `ids`. */
  ghost predicate Closed(folders: seq<Folder>, ids: set<string>) {
    forall f :: f in folders && ParentIn(f.parentId, ids) ==> f.id in ids
  }

  /** `v` is the id of a folder whose parent is in `ids`. */
  ghost predicate ChildOf(folders: seq<Folder>, ids: set<string>, v: string) {
    exists f :: f in folders && f.id == v && ParentIn(f.parentId, ids)
  }

  /** `d` is the id of a file whose parent is in `ids`. */
  ghost predicate FileUnder(files: seq<FileItem>, ids: set<string>, d: string) {
    exists f :: f in files && f.id == d && ParentIn(f.parentId, ids)
  }

  // ---------------------------------------------------------------- store

  class Store {
    var decks: seq<Deck>
    var notes: seq<Note>
    var users: seq<User>
    /** The stored current-user id; `""` when the key is absent. */
    var currentUserId: string
    var quizzes: seq<Quiz>
    var leaderboard: seq<LeaderboardEntry>
    var files: seq<FileItem>
    var folders: seq<Folder>

    /** An empty store; loading the module writes the (empty) leaderboard. */
    constructor()
      ensures decks == [] && notes == [] && users == [] && currentUserId == ""
      ensures quizzes == [] && leaderboard == [] && files == [] && folders == []
    {
      decks, notes, users, currentUserId := [], [], [], "";
      quizzes, leaderboard, files, folders := [], [], [], [];
    }

    method SaveDeck(deck: Deck)
      modifies this`decks
      ensures decks == Seqs.Upsert(old(decks), deck, DeckId)
    {
      decks := Seqs.Upsert(decks, deck, DeckId);
    }

    method DeleteDeck(deckId: string)
      modifies this`decks
      ensures decks == Seqs.RemoveKey(old(decks), DeckId, deckId)
    {
      decks := Seqs.RemoveKey(decks, DeckId, deckId);
    }

    method SaveNote(note: Note)
      modifies this`notes
      ensures notes == Seqs.Upsert(old(notes), note, NoteId)
    {
      notes := Seqs.Upsert(notes, note, NoteId);
    }

    method DeleteNote(noteId: string)
      modifies this`notes
      ensures notes == Seqs.RemoveKey(old(notes), NoteId, noteId)
    {
      notes := Seqs.RemoveKey(notes, NoteId, noteId);
    }

    /** `saveUser` upserts the user and then rebuilds the leaderboard. */
    method SaveUser(user: User)
      modifies this`users, this`leaderboard
      ensures users == Seqs.Upsert(old(users), user, UserId)
      ensures leaderboard == Leaderboard(users)
    {
      users := Seqs.Upsert(users, user, UserId);
      UpdateLeaderboard();
    }

    /** `setCurrentUser(id)`: a falsy id removes the key. */
    method SetCurrentUser(userId: string)
      modifies this`currentUserId
      ensures currentUserId == userId
    {
      currentUserId := userId;
    }

    method ClearCurrentUser()
      modifies this`currentUserId
      ensures currentUserId == ""
    {
      currentUserId := "";
    }

    /** `addPoints`: the first user with the id gains `points` and is saved
        (which also rebuilds the leaderboard); an unknown id changes nothing. */
    method AddPoints(userId: string, points: int)
      modifies this`users, this`leaderboard
      ensures users == WithPoints(old(users), userId, points)
      ensures (forall j :: 0 <= j < |old(users)| ==> old(users)[j].id != userId) ==> leaderboard == old(leaderboard)
      ensures (exists j :: 0 <= j < |old(users)| && old(users)[j].id == userId) ==> leaderboard == Leaderboard(users)
    {
      ghost var expected := WithPoints(users, userId, points);
      var i := Seqs.FindIndex(users, (u: User) => u.id == userId);
      if i >= 0 {
        var user := users[i];
        var updated := user.(points := user.points + points);
        assert Seqs.FirstWithKey(users, UserId, userId, i);
        assert expected == users[i := updated];
        assert UserId(updated) == userId;
        assert Seqs.Upsert(users, updated, UserId) == users[i := updated];
        SaveUser(updated);
      }
    }

    /** `updateLeaderboard`: build the entries, sort them, then number them
        in place. */
    method UpdateLeaderboard()
      modifies this`leaderboard
      ensures leaderboard == Leaderboard(users)
    {
      var entries := Sorting.SortDesc(Entries(users), EntryPoints);
      ghost var sorted := entries;
      var i := 0;
      while i < |entries|
        invariant 0 <= i <= |entries| == |sorted|
        invariant forall k :: 0 <= k < i ==> entries[k] == sorted[k].(rank := k + 1)
        invariant forall k :: i <= k < |entries| ==> entries[k] == sorted[k]
      {
        entries := entries[i := entries[i].(rank := i + 1)];
        i := i + 1;
      }
      leaderboard := entries;
    }

    method SaveQuiz(quiz: Quiz)
      modifies this`quizzes
      ensures quizzes == Seqs.Upsert(old(quizzes), quiz, QuizId)
    {
      quizzes := Seqs.Upsert(quizzes, quiz, QuizId);
    }

    /** `initializePublicDecks()`: when no stored deck is public, generates
        the public catalog and its quizzes and saves them one by one. */
    method InitializePublicDecks(now: int, authored: (nat, nat) -> PublicDecks.DeckText,
                                 shuffle: (string, nat, seq<string>) -> seq<string>)
      modifies this`decks, this`quizzes
      ensures (exists d :: d in old(decks) && d.isPublic == Some(true)) ==>
        decks == old(decks) && quizzes == old(quizzes)
      ensures !(exists d :: d in old(decks) && d.isPublic == Some(true)) ==>
        decks == Seqs.UpsertAll(old(decks), PublicDecks.Catalog(now, authored), DeckId)
        && quizzes == Seqs.UpsertAll(old(quizzes), PublicDecks.QuizzesFor(PublicDecks.Catalog(now, authored), shuffle), QuizId)
    {
      var hasPublic := exists d :: d in decks && d.isPublic == Some(true);
      if !hasPublic {
        var publicDecks := PublicDecks.GeneratePublicDecks(now, authored);
        var publicQuizzes := PublicDecks.GeneratePublicQuizzes(publicDecks, shuffle);
        SaveDecks(publicDecks);
        SaveQuizzes(publicQuizzes);
      }
    }

    /** `xs.forEach(deck => storage.saveDeck(deck))`. */
    method SaveDecks(xs: seq<Deck>)
      modifies this`decks
      ensures decks == Seqs.UpsertAll(old(decks), xs, DeckId)
    {
      ghost var entry := decks;
      for k := 0 to |xs|
        invariant decks == Seqs.UpsertAll(entry, xs[..k], DeckId)
      {
        assert xs[..k + 1][..k] == xs[..k];
        SaveDeck(xs[k]);
      }
      assert xs[..|xs|] == xs;
    }

    /** `xs.forEach(quiz => storage.saveQuiz(quiz))`. */
    method SaveQuizzes(xs: seq<Quiz>)
      modifies this`quizzes
      ensures quizzes == Seqs.UpsertAll(old(quizzes), xs, QuizId)
    {
      ghost var entry := quizzes;
      for k := 0 to |xs|
        invariant quizzes == Seqs.UpsertAll(entry, xs[..k], QuizId)
      {
        assert xs[..k + 1][..k] == xs[..k];
        SaveQuiz(xs[k]);
      }
      assert xs[..|xs|] == xs;
    }

    method SaveFile(file: FileItem)
      modifies this`files
      ensures files == Seqs.Upsert(old(files), file, FileId)
    {
      files := Seqs.Upsert(files, file, FileId);
    }

    method DeleteFile(fileId: string)
      modifies this`files
      ensures files == Seqs.RemoveKey(old(files), FileId, fileId)
    {
      files := Seqs.RemoveKey(files, FileId, fileId);
    }

    /** `saveFolder` reads through `getFolders()`, which keeps only the root
        folders, so every nested folder is dropped from the stored list. */
    method SaveFolder(folder: Folder)
      modifies this`folders
      ensures folders == Seqs.Upsert(GetFolders(old(folders), "", None), folder, FolderId)
    {
      folders := Seqs.Upsert(GetFolders(folders, "", None), folder, FolderId);
    }

    /** `saveFolder` as evidently intended: an upsert into the whole list. */
    method SaveFolderKeepingNested(folder: Folder)
      modifies this`folders
      ensures folders == Seqs.Upsert(old(folders), folder, FolderId)
    {
      folders := Seqs.Upsert(folders, folder, FolderId);
    }

    /**
     * `deleteFolder`: reads the whole folder list, deletes every child folder
     * recursively and then every child file, and finally writes back the list
     * it read on entry minus the target. The recursion visits the child
     * folders, but that last write restores them, so only the target leaves
     * the folder list; the files of every visited folder are deleted. The
     * recursion ends because `rank` decreases along parent links.
     */
    method DeleteFolder(folderId: string, ghost rank: map<string, nat>)
      requires Acyclic(folders, rank)
      modifies this`folders, this`files
      ensures folders == Seqs.RemoveKey(old(folders), FolderId, folderId)
      ensures files == DeleteSpec(old(folders), old(files), folderId, true, rank).files
      ensures (folders, files) == DeleteSpec(old(folders), old(files), folderId, true, rank).Lists()
    {
      DeleteFolderWalk(folderId, true, rank);
    }

    /** `deleteFolder` as evidently intended: the final write removes the
        target from the current list, so the deleted subfolders stay deleted. */
    method DeleteFolderTree(folderId: string, ghost rank: map<string, nat>)
      requires Acyclic(folders, rank)
      modifies this`folders, this`files
      ensures (folders, files) == DeleteSpec(old(folders), old(files), folderId, false, rank).Lists()
    {
      DeleteFolderWalk(folderId, false, rank);
    }

    /** The recursion shared by both: `restore` chooses whether the final
        write starts from the list read on entry or from the current list. */
    method DeleteFolderWalk(folderId: string, restore: bool, ghost rank: map<string, nat>)
      requires Acyclic(folders, rank)
      modifies this`folders, this`files
      decreases Measure(rank, folderId), 1, 0
      ensures (folders, files) == DeleteSpec(old(folders), old(files), folderId, restore, rank).Lists()
      ensures forall f :: f in folders ==> f in old(folders)
    {
      var snapshot := folders;
      var children := GetFolders(folders, "", Some(folderId));
      SubfoldersOfIsGetFolders(folders, folderId);
      ChildRanks(folders, folderId, children, rank);
      DeleteSubfolders(folderId, children, restore, rank);
      ghost var filesMid := files;
      DeleteChildFiles(folderId);
      ChildFileKeys(filesMid, folderId);
      if restore {
        folders := Seqs.RemoveKey(snapshot, FolderId, folderId);
      } else {
        folders := Seqs.RemoveKey(folders, FolderId, folderId);
      }
    }

    /** `childFolders.forEach(cf => storage.deleteFolder(cf.id))`. */
    method DeleteSubfolders(folderId: string, children: seq<Folder>, restore: bool, ghost rank: map<string, nat>)
      requires Acyclic(folders, rank)
      requires forall c :: c in children ==> Measure(rank, c.id) < Measure(rank, folderId)
      modifies this`folders, this`files
      decreases Measure(rank, folderId), 0, 0
      ensures (folders, files) == ChildrenSpec(old(folders), old(files), folderId, children, restore, rank, |children|).Lists()
      ensures forall f :: f in folders ==> f in old(folders)
    {
      ghost var snapshot, entryFiles := folders, files;
      var i := 0;
      while i < |children|
        invariant 0 <= i <= |children|
        invariant (folders, files) == ChildrenSpec(snapshot, entryFiles, folderId, children, restore, rank, i).Lists()
        invariant forall f :: f in folders ==> f in snapshot
      {
        var child := children[i];
        assert child in children;
        AcyclicSubset(snapshot, folders, rank);
        ChildrenSpecNext(snapshot, entryFiles, folderId, children, restore, rank, i);
        DeleteFolderWalk(child.id, restore, rank);
        i := i + 1;
      }
    }

    /** `childFiles.forEach(cf => storage.deleteFile(cf.id))` over the files
        whose parent is `folderId`. */
    method DeleteChildFiles(folderId: string)
      modifies this`files
      ensures files == Seqs.WithoutIds(old(files), FileId, Seqs.Keys(GetFiles(old(files), "", Some(folderId)), FileId))
    {
      ghost var entryFiles := files;
      var childFiles := GetFiles(files, "", Some(folderId));
      ghost var ids: set<string> := {};
      Seqs.WithoutNoIds(entryFiles, FileId);
      var k := 0;
      while k < |childFiles|
        invariant 0 <= k <= |childFiles|
        invariant files == Seqs.WithoutIds(entryFiles, FileId, ids)
        invariant ids == Seqs.Keys(childFiles[..k], FileId)
      {
        var c := childFiles[k];
        Seqs.KeysPrefix(childFiles, FileId, k + 1);
        DeleteFile(c.id);
        Seqs.WithoutIdsTwice(entryFiles, FileId, ids, {FileId(c)});
        ids := ids + {FileId(c)};
        k := k + 1;
      }
      assert childFiles[..k] == childFiles;
    }
  }

  // ------------------------------------------------------- folder deletion

  function Measure(rank: map<string, nat>, id: string): nat {
    if id in rank then rank[id] else 0
  }

  /** The outcome of a folder deletion: the new folder and file lists, the
      folder ids the recursion entered and the file ids it deleted. */
  datatype Deletion = Deletion(folders: seq<Folder>, files: seq<FileItem>, visited: set<string>, doomed: set<string>) {
    function Lists(): (seq<Folder>, seq<FileItem>) { (folders, files) }
  }

  /** What the deletion walk of `id` achieves, relative to the lists it started from. */
  ghost predicate WalkFacts(folders: seq<Folder>, files: seq<FileItem>, id: string, r: Deletion) {
    id in r.visited
    && Closed(folders, r.visited)
    && (forall v :: v in r.visited && v != id ==> ChildOf(folders, r.visited, v))
    && r.files == Seqs.WithoutIds(files, FileId, r.doomed)
    && (forall f :: f in files && ParentIn(f.parentId, r.visited) ==> f.id in r.doomed)
    && (forall d :: d in r.doomed ==> FileUnder(files, r.visited, d))
    && (forall f :: f in r.folders ==> f in folders)
    && (forall f :: f in folders && f.id !in r.visited ==> f in r.folders)
  }

  /** The value-level meaning of the deletion walk started at `id`. The walk
      only descends into a child ranked below `id`; under `Acyclic` every
      child is, so the guard never cuts the walk short. */
  ghost function DeleteSpec(folders: seq<Folder>, files: seq<FileItem>, id: string, restore: bool,
                            rank: map<string, nat>): Deletion
    decreases Measure(rank, id), 1, 0
  {
    var children := SubfoldersOf(folders, id);
    var t := ChildrenSpec(folders, files, id, children, restore, rank, |children|);
    var ids := FileIdsUnder(t.files, id);
    var base := if restore then folders else t.folders;
    Deletion(Seqs.WithoutIds(base, FolderId, {id}), Seqs.WithoutIds(t.files, FileId, ids), {id} + t.visited, t.doomed + ids)
  }

  /** The deletion walks of the first `n` children, one after the other. */
  ghost function ChildrenSpec(folders: seq<Folder>, files: seq<FileItem>, id: string, children: seq<Folder>,
                              restore: bool, rank: map<string, nat>, n: nat): Deletion
    requires n <= |children|
    decreases Measure(rank, id), 0, n
  {
    if n == 0 then Deletion(folders, files, {}, {})
    else
      var prev := ChildrenSpec(folders, files, id, children, restore, rank, n - 1);
      var child := children[n - 1];
      if Measure(rank, child.id) < Measure(rank, id) then
        var step := DeleteSpec(prev.folders, prev.files, child.id, restore, rank);
        Deletion(step.folders, step.files, prev.visited + step.visited, prev.doomed + step.doomed)
      else prev
  }

  lemma ChildrenSpecNext(folders: seq<Folder>, files: seq<FileItem>, id: string, children: seq<Folder>,
                         restore: bool, rank: map<string, nat>, i: nat)
    requires i < |children|
    requires Measure(rank, children[i].id) < Measure(rank, id)
    ensures ChildrenSpec(folders, files, id, children, restore, rank, i + 1).Lists() ==
      DeleteSpec(ChildrenSpec(folders, files, id, children, restore, rank, i).folders,
                 ChildrenSpec(folders, files, id, children, restore, rank, i).files,
                 children[i].id, restore, rank).Lists()
  {
  }

  ghost predicate ChildrenFacts(folders: seq<Folder>, files: seq<FileItem>, id: string, done: seq<Folder>, r: Deletion) {
    Explored(folders, files, id, r.visited, r.doomed, r.folders, r.files)
    && Seqs.Keys(done, FolderId) <= r.visited
  }

  /** The folders whose parent is `id`, in list order. */
  ghost function SubfoldersOf(folders: seq<Folder>, id: string): seq<Folder> {
    if folders == [] then []
    else (if folders[0].parentId == Some(id) then [folders[0]] else []) + SubfoldersOf(folders[1..], id)
  }

  lemma {:induction false} SubfoldersOfIsGetFolders(folders: seq<Folder>, id: string)
    ensures GetFolders(folders, "", Some(id)) == SubfoldersOf(folders, id)
  {
    if folders != [] {
      SubfoldersOfIsGetFolders(folders[1..], id);
    }
  }

  /** The ids of the files whose parent is `id`. */
  ghost function FileIdsUnder(files: seq<FileItem>, id: string): set<string> {
    if files == [] then {}
    else (if files[0].parentId == Some(id) then {files[0].id} else {}) + FileIdsUnder(files[1..], id)
  }

  lemma {:induction false} FileIdsUnderMember(files: seq<FileItem>, id: string, x: string)
    ensures x in FileIdsUnder(files, id) <==> exists f :: f in files && f.id == x && f.parentId == Some(id)
  {
    if files != [] {
      FileIdsUnderMember(files[1..], id, x);
      if x in FileIdsUnder(files[1..], id) {
        var f :| f in files[1..] && f.id == x && f.parentId == Some(id);
        assert f in files;
      }
      if exists f :: f in files && f.id == x && f.parentId == Some(id) {
        var f :| f in files && f.id == x && f.parentId == Some(id);
        if f != files[0] {
          assert f in files[1..];
        }
      }
    }
  }

  /** The ids `deleteFolder` collects from `getFiles(undefined, folderId)`. */
  lemma ChildFileKeys(files: seq<FileItem>, id: string)
    ensures Seqs.Keys(GetFiles(files, "", Some(id)), FileId) == FileIdsUnder(files, id)
  {
    var childFiles := GetFiles(files, "", Some(id));
    var ids := Seqs.Keys(childFiles, FileId);
    ChildFileIds(files, id, childFiles, ids);
    forall x
      ensures x in ids <==> x in FileIdsUnder(files, id)
    {
      FileIdsUnderMember(files, id, x);
    }
  }

  lemma ChildRanks(folders: seq<Folder>, id: string, children: seq<Folder>, rank: map<string, nat>)
    requires Acyclic(folders, rank)
    requires children == SubfoldersOf(folders, id)
    ensures forall c :: c in children <==> c in folders && c.parentId == Some(id)
    ensures forall c :: c in children ==> Measure(rank, c.id) < Measure(rank, id)
  {
    SubfoldersOfIsGetFolders(folders, id);
  }

  /** What the deletion walk of `id` achieves: it enters `id`, it enters
      exactly the folders reachable from `id` through parent links (every
      entered folder other than `id` is a child of an entered one, and every
      child of an entered folder is entered), it deletes exactly the files
      whose parent was entered, and from the folder list it removes at most
      the entered folders. */
  lemma {:induction false} DeleteSpecExplores(folders: seq<Folder>, files: seq<FileItem>, id: string,
                                              restore: bool, rank: map<string, nat>)
    requires Acyclic(folders, rank)
    decreases Measure(rank, id), 1, 0
    ensures WalkFacts(folders, files, id, DeleteSpec(folders, files, id, restore, rank))
  {
    var r := DeleteSpec(folders, files, id, restore, rank);
    var children := SubfoldersOf(folders, id);
    ChildRanks(folders, id, children, rank);
    var t := ChildrenSpec(folders, files, id, children, restore, rank, |children|);
    ChildrenSpecExplores(folders, files, id, children, restore, rank, |children|);
    assert children[..|children|] == children;
    var ids := FileIdsUnder(t.files, id);
    forall x
      ensures x in ids <==> exists f :: f in t.files && f.id == x && f.parentId == Some(id)
    {
      FileIdsUnderMember(t.files, id, x);
    }
    FinishDelete(folders, files, id, children, t.visited, t.doomed, t.folders, t.files, ids, r.files);
    var base := if restore then folders else t.folders;
    Seqs.WithoutIdsSubset(base, FolderId, {id});
    forall f | f in folders && f.id !in r.visited
      ensures f in r.folders
    {
      Seqs.WithoutIdsMember(base, FolderId, {id}, f);
    }
  }

  lemma {:induction false} ChildrenSpecExplores(folders: seq<Folder>, files: seq<FileItem>, id: string,
                                                children: seq<Folder>, restore: bool, rank: map<string, nat>, n: nat)
    requires n <= |children|
    requires Acyclic(folders, rank)
    requires forall c :: c in children ==> c in folders && c.parentId == Some(id)
    requires forall c :: c in children ==> Measure(rank, c.id) < Measure(rank, id)
    decreases Measure(rank, id), 0, n
    ensures ChildrenFacts(folders, files, id, children[..n], ChildrenSpec(folders, files, id, children, restore, rank, n))
  {
    if n == 0 {
      Seqs.WithoutNoIds(files, FileId);
    } else {
      var prev := ChildrenSpec(folders, files, id, children, restore, rank, n - 1);
      ChildrenSpecExplores(folders, files, id, children, restore, rank, n - 1);
      AcyclicSubset(folders, prev.folders, rank);
      var child := children[n - 1];
      assert child in children;
      DeleteSpecExplores(prev.folders, prev.files, child.id, restore, rank);
      var step := DeleteSpec(prev.folders, prev.files, child.id, restore, rank);
      SubfolderStep(folders, files, id, child, prev.visited, prev.doomed, prev.folders, prev.files, step);
      Seqs.KeysPrefix(children, FolderId, n);
    }
  }

  lemma ChildFileIds(files: seq<FileItem>, folderId: string, childFiles: seq<FileItem>, ids: set<string>)
    requires childFiles == GetFiles(files, "", Some(folderId))
    requires ids == Seqs.Keys(childFiles, FileId)
    ensures forall f :: f in files && f.parentId == Some(folderId) ==> f.id in ids
    ensures forall x :: x in ids ==> exists f :: f in files && f.id == x && f.parentId == Some(folderId)
  {
    forall f | f in files && f.parentId == Some(folderId)
      ensures f.id in ids
    {
      assert f in childFiles;
      var j :| 0 <= j < |childFiles| && childFiles[j] == f;
      Seqs.KeysHas(childFiles, FileId, j);
    }
    forall x | x in ids
      ensures exists f :: f in files && f.id == x && f.parentId == Some(folderId)
    {
      var j := Seqs.KeysWitness(childFiles, FileId, x);
      assert childFiles[j] in childFiles;
    }
  }

  /** What deleting the subfolders of `root` named in `below` has achieved,
      relative to the folder list `entry` and the file list `entryFiles` read
      when the deletion of `root` began. */
  ghost predicate Explored(entry: seq<Folder>, entryFiles: seq<FileItem>, root: string,
                           below: set<string>, doomed: set<string>,
                           folders: seq<Folder>, files: seq<FileItem>) {
    var visited := {root} + below;
    (forall f :: f in folders ==> f in entry)
    && (forall f :: f in entry && f.id !in visited ==> f in folders)
    && (forall f :: f in entry && ParentIn(f.parentId, below) ==> f.id in visited)
    && (forall x :: x in below ==> ChildOf(entry, visited, x))
    && files == Seqs.WithoutIds(entryFiles, FileId, doomed)
    && (forall f :: f in entryFiles && ParentIn(f.parentId, below) ==> f.id in doomed)
    && (forall x :: x in doomed ==> FileUnder(entryFiles, visited, x))
  }

  lemma AcyclicSubset(big: seq<Folder>, small: seq<Folder>, rank: map<string, nat>)
    requires Acyclic(big, rank)
    requires forall f :: f in small ==> f in big
    ensures Acyclic(small, rank)
  {
  }

  /** One child deletion extends what has been explored. */
  lemma SubfolderStep(entry: seq<Folder>, entryFiles: seq<FileItem>, root: string, child: Folder,
                      below: set<string>, doomed: set<string>,
                      before: seq<Folder>, beforeFiles: seq<FileItem>, step: Deletion)
    requires Explored(entry, entryFiles, root, below, doomed, before, beforeFiles)
    requires child in entry && child.parentId == Some(root)
    requires WalkFacts(before, beforeFiles, child.id, step)
    ensures Explored(entry, entryFiles, root, below + step.visited, doomed + step.doomed, step.folders, step.files)
  {
    var v, d, after := step.visited, step.doomed, step.folders;
    var visited := {root} + below;
    var visited' := {root} + (below + v);
    forall f | f in entry && f.id !in visited'
      ensures f in after
    {
      assert f in before;
    }
    forall f | f in entry && ParentIn(f.parentId, below + v)
      ensures f.id in visited'
    {
      if f.parentId.value !in below && f.id !in visited {
        assert f in before;
      }
    }
    forall x | x in below + v
      ensures ChildOf(entry, visited', x)
    {
      if x in below {
        var f :| f in entry && f.id == x && ParentIn(f.parentId, visited);
        assert ParentIn(f.parentId, visited');
      } else if x == child.id {
        assert ParentIn(child.parentId, visited');
      } else {
        var f :| f in before && f.id == x && ParentIn(f.parentId, v);
        assert f in entry && ParentIn(f.parentId, visited');
      }
    }
    forall f | f in beforeFiles
      ensures f in entryFiles && f.id !in doomed
    {
      Seqs.WithoutIdsMember(entryFiles, FileId, doomed, f);
    }
    forall f | f in entryFiles && ParentIn(f.parentId, below + v)
      ensures f.id in doomed + d
    {
      if f.parentId.value !in below && f.id !in doomed {
        Seqs.WithoutIdsMember(entryFiles, FileId, doomed, f);
      }
    }
    forall x | x in doomed + d
      ensures FileUnder(entryFiles, visited', x)
    {
      if x in doomed {
        var f :| f in entryFiles && f.id == x && ParentIn(f.parentId, visited);
        assert ParentIn(f.parentId, visited');
      } else {
        var f :| f in beforeFiles && f.id == x && ParentIn(f.parentId, v);
        assert f in entryFiles && ParentIn(f.parentId, visited');
      }
    }
    Seqs.WithoutIdsTwice(entryFiles, FileId, doomed, d);
  }

  /** Deleting the child files of `root` completes the deletion. */
  lemma FinishDelete(entry: seq<Folder>, entryFiles: seq<FileItem>, root: string, children: seq<Folder>,
                     below: set<string>, d1: set<string>,
                     folders: seq<Folder>, filesMid: seq<FileItem>, d2: set<string>, files: seq<FileItem>)
    requires Explored(entry, entryFiles, root, below, d1, folders, filesMid)
    requires forall f :: f in entry && f.parentId == Some(root) ==> f in children
    requires Seqs.Keys(children, FolderId) <= below
    requires files == Seqs.WithoutIds(filesMid, FileId, d2)
    requires forall f :: f in filesMid && f.parentId == Some(root) ==> f.id in d2
    requires forall x :: x in d2 ==> exists f :: f in filesMid && f.id == x && f.parentId == Some(root)
    ensures files == Seqs.WithoutIds(entryFiles, FileId, d1 + d2)
    ensures Closed(entry, {root} + below)
    ensures forall f :: f in entryFiles && ParentIn(f.parentId, {root} + below) ==> f.id in d1 + d2
    ensures forall x :: x in d1 + d2 ==> FileUnder(entryFiles, {root} + below, x)
  {
    var visited := {root} + below;
    forall f | f in entry && ParentIn(f.parentId, visited)
      ensures f.id in visited
    {
      if f.parentId.value == root {
        assert f in children;
        var j :| 0 <= j < |children| && children[j] == f;
        Seqs.KeysHas(children, FolderId, j);
      }
    }
    forall f | f in entryFiles && ParentIn(f.parentId, visited)
      ensures f.id in d1 + d2
    {
      Seqs.WithoutIdsMember(entryFiles, FileId, d1, f);
    }
    forall x | x in d2
      ensures FileUnder(entryFiles, visited, x)
    {
      var f :| f in filesMid && f.id == x && f.parentId == Some(root);
      Seqs.WithoutIdsMember(entryFiles, FileId, d1, f);
      assert ParentIn(f.parentId, visited);
    }
    Seqs.WithoutIdsTwice(entryFiles, FileId, d1, d2);
  }

  /** After initialisation every public deck and every public quiz is stored. */
  lemma InitializeStoresCatalog(decks: seq<Deck>, quizzes: seq<Quiz>, now: int,
                                authored: (nat, nat) -> PublicDecks.DeckText,
                                shuffle: (string, nat, seq<string>) -> seq<string>)
    ensures forall n :: 0 <= n < 200 ==>
      PublicDecks.Catalog(now, authored)[n] in Seqs.UpsertAll(decks, PublicDecks.Catalog(now, authored), DeckId)
    ensures forall n :: 0 <= n < 200 ==>
      PublicDecks.QuizzesFor(PublicDecks.Catalog(now, authored), shuffle)[n] in
        Seqs.UpsertAll(quizzes, PublicDecks.QuizzesFor(PublicDecks.Catalog(now, authored), shuffle), QuizId)
  {
    var catalog := PublicDecks.Catalog(now, authored);
    PublicDecks.CatalogIdsDistinct(now, authored);
    Seqs.UpsertAllContains(decks, catalog, DeckId);
    PublicDecks.QuizIdsDistinct(catalog, shuffle);
    Seqs.UpsertAllContains(quizzes, PublicDecks.QuizzesFor(catalog, shuffle), QuizId);
  }

  // ------------------------------------------------- folder findings

  /** As written, `saveFolder` loses every nested folder other than the one
      being saved: they are not in the root-only list it writes back. */
  lemma SaveFolderDropsNested(folders: seq<Folder>, folder: Folder, f: Folder)
    requires f in folders && f.parentId.Some? && f != folder
    ensures f !in Seqs.Upsert(GetFolders(folders, "", None), folder, FolderId)
  {
    if f in Seqs.Upsert(GetFolders(folders, "", None), folder, FolderId) {
      Seqs.UpsertMembers(GetFolders(folders, "", None), folder, FolderId, f);
    }
  }

  /** The corrected `saveFolder` keeps every folder with another id. */
  lemma SaveFolderKeepsOthers(folders: seq<Folder>, folder: Folder, f: Folder)
    requires f in folders && f.id != folder.id
    ensures f in Seqs.Upsert(folders, folder, FolderId)
  {
    Seqs.UpsertFrame(folders, folder, FolderId);
    var j :| 0 <= j < |folders| && folders[j] == f;
    assert Seqs.Upsert(folders, folder, FolderId)[j] == f;
  }

  /** As written, `deleteFolder` leaves each direct child folder of the
      target in the list while the target itself is gone and the child's own
      files are deleted: the child is orphaned. */
  lemma DeleteFolderOrphans(folders: seq<Folder>, files: seq<FileItem>, id: string,
                            rank: map<string, nat>, c: Folder)
    requires Acyclic(folders, rank)
    requires c in folders && c.parentId == Some(id) && c.id != id
    ensures c in DeleteSpec(folders, files, id, true, rank).folders
    ensures forall f :: f in DeleteSpec(folders, files, id, true, rank).folders ==> f.id != id
    ensures forall g :: g in files && g.parentId == Some(c.id) ==> g !in DeleteSpec(folders, files, id, true, rank).files
  {
    var r := DeleteSpec(folders, files, id, true, rank);
    DeleteSpecExplores(folders, files, id, true, rank);
    Seqs.WithoutIdsMember(folders, FolderId, {id}, c);
    forall f | f in r.folders
      ensures f.id != id
    {
      Seqs.WithoutIdsMember(folders, FolderId, {id}, f);
    }
    assert ParentIn(c.parentId, r.visited);
    forall g | g in files && g.parentId == Some(c.id)
      ensures g !in r.files
    {
      assert ParentIn(g.parentId, r.visited);
      Seqs.WithoutIdsMember(files, FileId, r.doomed, g);
    }
  }

  /** The corrected walk removes exactly the entered folders. */
  lemma {:induction false} DeleteTreeFolders(folders: seq<Folder>, files: seq<FileItem>, id: string,
                                             rank: map<string, nat>)
    decreases Measure(rank, id), 1, 0
    ensures DeleteSpec(folders, files, id, false, rank).folders ==
            Seqs.WithoutIds(folders, FolderId, DeleteSpec(folders, files, id, false, rank).visited)
  {
    var children := SubfoldersOf(folders, id);
    var t := ChildrenSpec(folders, files, id, children, false, rank, |children|);
    ChildrenTreeFolders(folders, files, id, children, rank, |children|);
    Seqs.WithoutIdsTwice(folders, FolderId, t.visited, {id});
    assert t.visited + {id} == {id} + t.visited;
  }

  lemma {:induction false} ChildrenTreeFolders(folders: seq<Folder>, files: seq<FileItem>, id: string,
                                               children: seq<Folder>, rank: map<string, nat>, n: nat)
    requires n <= |children|
    decreases Measure(rank, id), 0, n
    ensures ChildrenSpec(folders, files, id, children, false, rank, n).folders ==
            Seqs.WithoutIds(folders, FolderId, ChildrenSpec(folders, files, id, children, false, rank, n).visited)
  {
    if n == 0 {
      Seqs.WithoutNoIds(folders, FolderId);
    } else {
      var prev := ChildrenSpec(folders, files, id, children, false, rank, n - 1);
      ChildrenTreeFolders(folders, files, id, children, rank, n - 1);
      var child := children[n - 1];
      if Measure(rank, child.id) < Measure(rank, id) {
        var step := DeleteSpec(prev.folders, prev.files, child.id, false, rank);
        DeleteTreeFolders(prev.folders, prev.files, child.id, rank);
        Seqs.WithoutIdsTwice(folders, FolderId, prev.visited, step.visited);
      }
    }
  }

  /** The corrected deletion leaves no orphan: the target is gone, and no
      remaining folder or file has an entered folder as its parent. */
  lemma DeleteTreeNoOrphans(folders: seq<Folder>, files: seq<FileItem>, id: string, rank: map<string, nat>)
    requires Acyclic(folders, rank)
    ensures forall f :: f in DeleteSpec(folders, files, id, false, rank).folders ==>
      f.id != id && !ParentIn(f.parentId, DeleteSpec(folders, files, id, false, rank).visited)
    ensures forall g :: g in DeleteSpec(folders, files, id, false, rank).files ==>
      !ParentIn(g.parentId, DeleteSpec(folders, files, id, false, rank).visited)
  {
    var r := DeleteSpec(folders, files, id, false, rank);
    DeleteSpecExplores(folders, files, id, false, rank);
    DeleteTreeFolders(folders, files, id, rank);
    forall f | f in r.folders
      ensures f.id != id && !ParentIn(f.parentId, r.visited)
    {
      Seqs.WithoutIdsMember(folders, FolderId, r.visited, f);
    }
    forall g | g in r.files
      ensures !ParentIn(g.parentId, r.visited)
    {
      Seqs.WithoutIdsMember(files, FileId, r.doomed, g);
    }
  }
}
