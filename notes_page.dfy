/**
 * The notes page: the signed-in user's notes, most recently edited first,
 * with a short preview, a relative date, deletion (which also removes the
 * note's file in My Files) and saving a note into My Files.
 */
module NotesPage {
  import opened Wrappers
  import opened Records
  import Seqs
  import Sorting
  import Text
  import opened Storage
  import Home

  const Day: int := 86400000
  const PreviewLength: nat := 150

  /** `currentUser?.id`, with `""` standing for undefined. */
  function UserKey(user: Option<User>): string {
    if user.Some? then user.value.id else ""
  }

  function UpdatedAt(n: Note): int { n.updatedAt }

  /** `loadNotes`: the user's notes (all notes when nobody is signed in),
      sorted by `updatedAt`, latest first. */
  function LoadNotes(notes: seq<Note>, user: Option<User>): seq<Note> {
    Sorting.SortDesc(GetNotes(notes, UserKey(user)), UpdatedAt)
  }

  /** The list shows each of the user's notes once, latest edit first, and
      notes edited at the same time keep their stored order. */
  lemma LoadNotesListed(notes: seq<Note>, user: Option<User>)
    ensures var shown := LoadNotes(notes, user);
      && Sorting.SortedDesc(shown, UpdatedAt)
      && multiset(shown) == multiset(GetNotes(notes, UserKey(user)))
      && (forall n :: n in shown <==> n in notes && (user.None? || user.value.id == "" || n.userId == user.value.id))
      && (forall k :: Sorting.WithKey(shown, UpdatedAt, k) == Sorting.WithKey(GetNotes(notes, UserKey(user)), UpdatedAt, k))
  {
    var mine := GetNotes(notes, UserKey(user));
    var shown := LoadNotes(notes, user);
    forall n
      ensures n in shown <==> n in mine
    {
      assert n in shown <==> n in multiset(shown);
    }
    forall k {
      Sorting.SortDescStable(mine, UpdatedAt, k);
    }
  }

  /** The file in My Files that `deleteNote` and `saveNoteToFiles` look for:
      the first of the user's files at the root of My Files that links the
      note. */
  function LinkedFile(files: seq<FileItem>, userId: string, noteId: string): (r: Option<FileItem>)
    ensures r.Some? ==> r.value in files && r.value.noteId == Some(noteId)
    ensures r.Some? && userId != "" ==> r.value.userId == userId && r.value.parentId.None?
    ensures r.None? <==> forall f :: f in GetFiles(files, userId, None) ==> f.noteId != Some(noteId)
  {
    var roots := GetFiles(files, userId, None);
    var r := Seqs.Find(roots, (f: FileItem) => f.noteId == Some(noteId));
    assert r.None? <==> forall f :: f in roots ==> f.noteId != Some(noteId);
    r
  }

  /** The files after `deleteNote`: the linked root file, if any, is gone. */
  function FilesAfterDelete(files: seq<FileItem>, userId: string, noteId: string): (r: seq<FileItem>)
    ensures LinkedFile(files, userId, noteId).None? ==> r == files
    ensures LinkedFile(files, userId, noteId).Some? ==>
      r == Seqs.RemoveKey(files, FileId, LinkedFile(files, userId, noteId).value.id)
  {
    var linked := LinkedFile(files, userId, noteId);
    if linked.Some? then Seqs.RemoveKey(files, FileId, linked.value.id) else files
  }

  /** Only the root of My Files is searched: a note whose file was moved into
      a folder leaves that file behind when it is deleted. */
  lemma DeleteKeepsFilesInFolders(files: seq<FileItem>, userId: string, noteId: string)
    requires userId != ""
    requires forall f :: f in files && f.noteId == Some(noteId) ==> f.parentId.Some?
    ensures FilesAfterDelete(files, userId, noteId) == files
  {
  }

  /** The linked root file itself is removed, and with it every other file
      sharing its id; no other file is touched. */
  lemma DeleteRemovesLinkedFile(files: seq<FileItem>, userId: string, noteId: string)
    requires LinkedFile(files, userId, noteId).Some?
    ensures var gone := LinkedFile(files, userId, noteId).value;
      var after := FilesAfterDelete(files, userId, noteId);
      && gone !in after
      && (forall f :: f in files && f.id != gone.id ==> f in after)
  {
  }

  /** The file `saveNoteToFiles` creates: `file-note-<id>` at the root of My
      Files, named after the note and sized by its drawing or text. */
  function SavedFile(note: Note, userId: string, now: int, serialized: string): (f: FileItem)
    ensures f.id == "file-note-" + note.id && f.noteId == Some(note.id) && f.kind == NoteKind
    ensures f.parentId.None? && f.userId == userId && f.size == |Home.NoteData(note)|
    ensures f.createdAt == now && f.updatedAt == now && f.data == serialized
  {
    Home.NoteFile(note, None, userId, now, serialized)
  }

  /** Once saved, the note is found among the user's root files, so saving
      it again is refused. */
  lemma SaveThenLinked(files: seq<FileItem>, note: Note, userId: string, now: int, serialized: string)
    ensures var after := Seqs.Upsert(files, SavedFile(note, userId, now, serialized), FileId);
      LinkedFile(after, userId, note.id).Some?
  {
    var f := SavedFile(note, userId, now, serialized);
    Seqs.UpsertFrame(files, f, FileId);
    var after := Seqs.Upsert(files, f, FileId);
    assert f in GetFiles(after, userId, None);
  }

  /** What `saveNoteToFiles` reports. */
  datatype SaveOutcome = NotSignedIn | AlreadySaved | Saved

  /** The text preview: the first 150 characters followed by "..." when the
      text is longer, the whole text when it fits, and "Empty note..." for
      an empty note. */
  function TextPreview(content: string): (r: string)
    ensures content == "" ==> r == "Empty note..."
    ensures 0 < |content| <= PreviewLength ==> r == content
    ensures |content| > PreviewLength ==> r == content[..PreviewLength] + "..."
  {
    var head := Text.Take(content, PreviewLength);
    (if head == "" then "Empty note..." else head) + (if |content| > PreviewLength then "..." else "")
  }

  /** A preview is never longer than 153 characters and always starts with
      the note's first characters, or is the empty-note text. */
  lemma TextPreviewShape(content: string)
    ensures |TextPreview(content)| <= PreviewLength + 3
    ensures content != "" ==> Text.Take(content, PreviewLength) <= TextPreview(content)
  {
  }

  /** A note with a drawing shows the drawing, otherwise its text. */
  datatype Preview = Drawing(src: string) | Excerpt(text: string)

  function NotePreview(note: Note): Preview {
    if note.handwriting.Some? && note.handwriting.value != "" then Drawing(note.handwriting.value)
    else Excerpt(TextPreview(note.content))
  }

  /** The card shows a drawing exactly when the note has a non-empty one, and
      then the same data its file stores; otherwise an excerpt of at most 153
      characters that starts with the text's first 150, or the empty-note
      text. */
  lemma NotePreviewShape(note: Note)
    ensures NotePreview(note).Drawing? <==> note.handwriting.Some? && note.handwriting.value != ""
    ensures NotePreview(note).Drawing? ==> NotePreview(note).src == Home.NoteData(note)
    ensures NotePreview(note).Excerpt? ==>
      var t := NotePreview(note).text;
      && |t| <= PreviewLength + 3
      && (note.content != "" ==> Text.Take(note.content, PreviewLength) <= t)
      && (note.content == "" ==> t == "Empty note...")
  {
    TextPreviewShape(note.content);
  }

  /** `formatDate` of the notes page, by whole days elapsed (rounded down):
      "Today", "Yesterday", "n days ago" under a week (a date in the future
      gives a negative count), and the locale date from a week on. */
  function FormatDate(timestamp: int, now: int): (r: Text.DateText)
    ensures var diff := now - timestamp;
      && (r == Text.Relative("Today") <==> 0 <= diff < Day)
      && (r == Text.Relative("Yesterday") <==> Day <= diff < 2 * Day)
      && (2 * Day <= diff < 7 * Day ==> r == Text.Relative(Text.IntToString(diff / Day) + " days ago"))
      && (diff < 0 ==> r == Text.Relative(Text.IntToString(diff / Day) + " days ago") && diff / Day < 0)
      && (r.LocaleDate? <==> diff >= 7 * Day)
      && (r.LocaleDate? ==> r.timestamp == timestamp)
  {
    var days := (now - timestamp) / Day;
    if days == 0 then Text.Relative("Today")
    else if days == 1 then Text.Relative("Yesterday")
    else if days < 7 then Text.Relative(Text.IntToString(days) + " days ago")
    else Text.LocaleDate(timestamp)
  }

  class NotesList {
    const store: Store
    /** The notes shown. */
    var notes: seq<Note>

    constructor(store: Store)
      ensures this.store == store && notes == []
    {
      this.store := store;
      notes := [];
    }

    /** `loadNotes` reads the signed-in user afresh. */
    method Load()
      modifies this`notes
      ensures notes == LoadNotes(store.notes, GetCurrentUser(store.users, store.currentUserId))
    {
      notes := LoadNotes(store.notes, GetCurrentUser(store.users, store.currentUserId));
    }

    /** `deleteNote` after the confirmation: the note is deleted, then the
        first root file of `user` linking it, and the list is reloaded. */
    method DeleteNote(noteId: string, user: Option<User>)
      modifies store`notes, store`files, this`notes
      ensures store.notes == Seqs.RemoveKey(old(store.notes), NoteId, noteId)
      ensures store.files == FilesAfterDelete(old(store.files), UserKey(user), noteId)
      ensures notes == LoadNotes(store.notes, GetCurrentUser(store.users, store.currentUserId))
    {
      store.DeleteNote(noteId);
      var linked := LinkedFile(store.files, UserKey(user), noteId);
      if linked.Some? {
        store.DeleteFile(linked.value.id);
      }
      Load();
    }

    /** `saveNoteToFiles`: refused without a signed-in user or when the note
        already has a root file; otherwise its file is stored. */
    method SaveToFiles(note: Note, user: Option<User>, now: int, serialize: Note -> string)
      returns (outcome: SaveOutcome)
      modifies store`files
      ensures user.None? ==> outcome == NotSignedIn && store.files == old(store.files)
      ensures user.Some? && LinkedFile(old(store.files), user.value.id, note.id).Some? ==>
        outcome == AlreadySaved && store.files == old(store.files)
      ensures user.Some? && LinkedFile(old(store.files), user.value.id, note.id).None? ==>
        outcome == Saved
        && store.files == Seqs.Upsert(old(store.files), SavedFile(note, user.value.id, now, serialize(note)), FileId)
    {
      if user.None? {
        return NotSignedIn;
      }
      if LinkedFile(store.files, user.value.id, note.id).Some? {
        return AlreadySaved;
      }
      store.SaveFile(SavedFile(note, user.value.id, now, serialize(note)));
      outcome := Saved;
    }
  }
}
