# Gizmok core, modelled in Dafny

Gizmok is a browser study app. It stores flashcard decks, quizzes, notes,
files, folders and users in `localStorage`, and it has a freehand note
canvas. It ships a built-in library of public decks and quizzes. A small
serverless proxy turns study text into flashcards or quiz questions through
a hosted language model.

This project models these parts of it:

- **The note-canvas editor** (`NoteEditor`, `CanvasImages`, `Templates`):
  - the bounded undo/redo history of canvas snapshots;
  - the image-object layer, with hit tests, move, aspect-locked resize,
    fit-and-centre insert and delete;
  - the tool and gesture state machine and the keyboard map;
  - the rule and grid positions of the paper templates.
- **The record store** (`Storage`). It is a class with one sequence per
  storage key. It covers:
  - upsert and delete by id;
  - the parent-folder filters;
  - recursive folder deletion;
  - the leaderboard.
- **The public library generator** (`PublicDecks`): 200 decks and one
  quiz per deck.
- **The AI proxy's request handler** (`AiProxy`): its decision table of
  status codes and the normalisation of the model's reply.
- **The page logic**:
  - My Files and the deck tabs (`Home`);
  - quiz taking (`QuizMode`) and card study (`StudyMode`);
  - quizzes in progress (`Progress`) and the note list (`NotesPage`);
  - card editing (`DeckEditor`) and the public library page
    (`PublicLibrary`);
  - sign-in and sign-up (`Auth`).

Shared helpers: `Wrappers` (Option), `Records` (the stored record types),
`Text` (lower-casing, trimming, number formatting, slugs), `Seqs` (find,
filter, upsert by key, remove by key) and `Sorting`. `Sorting` is a stable
descending sort, which is what `Array.prototype.sort` with a
`b.key - a.key` comparator does.

Modelling conventions:

- `Date.now()` becomes the parameter `now`. `Math.random()` shuffles
  become permutation parameters (`IsShuffle`, `Permutes`).
- The language-model call and `JSON.parse` are the parameters `llm` and
  `parse`. `JSON.stringify` of a note is the parameter `serialize`.
- Canvas rasters are opaque snapshot strings. Geometry is over `real`.
- JavaScript's `undefined` user id and `""` are both falsy in the source,
  and both are `""` here. A `parentId` is an `Option<string>`, because
  `getFiles` tells `undefined` apart from a given id.
- The three note-drop handlers on My Files share one model. The window-wide drop (`src/pages/Home.tsx:53-89`) is `Home.HomePage.SaveNoteAt` with the current folder as target. The drop zone and the folder tiles additionally fall back to the ordinary drop when no note is carried.
- The folder parent links carry a ghost rank map that decreases from
  child to parent. The source's recursive folder delete and its
  breadcrumb `while` loop terminate only on acyclic links, so the map
  witnesses exactly that.

Where the code and its documented behaviour differ, the model follows the
code:

- The plain `grid` template draws no heavier fifth lines. Only
  `graph-small` and `graph-large` draw them (`Templates.DrawTemplate`).
- Undo and redo repaint only the template and the snapshot, not the image
  layer.

## Model

| member | source | states |
|---|---|---|
| Storage.GetDecks | src/utils/storage.ts:118-125 | with a user id, exactly that user's decks; all decks when it is empty |
| Storage.GetNotes | src/utils/storage.ts:145-152 | with a user id, exactly that user's notes; all notes when it is empty |
| Storage.GetNote | src/utils/storage.ts:171-174 | a stored note with that id, and none exactly when no note has it |
| Storage.GetCurrentUser | src/utils/storage.ts:195-200 | no user when no id is set; otherwise the stored user with that id, and none iff the id is unknown |
| Storage.GetQuiz | src/utils/storage.ts:271-274 | a stored quiz with that id, and none exactly when no quiz has it |
| Storage.GetPublicDecks | src/utils/storage.ts:276-278 | exactly the decks marked public |
| Storage.GetPublicQuizzes | src/utils/storage.ts:280-282 | exactly the quizzes owned by "public" |
| Storage.GetFiles | src/utils/storage.ts:308-331 | all files with neither argument; otherwise the user's files, restricted to the given parent (or to root files when only a user is given) |
| Storage.GetFile | src/utils/storage.ts:354-359 | a stored file with that id, and none exactly when no file has it |
| Storage.GetFolders | src/utils/storage.ts:362-381 | exactly the (user's) folders whose parent equals the argument, root folders when it is absent |
| Storage.GetFolder | src/utils/storage.ts:407-412 | a stored folder with that id, and none exactly when no folder has it |
| Storage.WithPoints | src/utils/storage.ts:214-221 | only the first user with that id changes, by exactly the points; no change when the id is absent |
| Storage.Entries | src/utils/storage.ts:237-244 | one leaderboard entry per user, in user order, carrying its id, name, university and points |
| Storage.Ranked | src/utils/storage.ts:247-249 | the k-th entry gets rank start + k and nothing else changes |
| Storage.LeaderboardShape | src/utils/storage.ts:235-252 | the leaderboard has one entry per user, ranks 1..n in list order, points non-increasing, and with ranks cleared it is a permutation of the users' entries |
| Storage.RankingKeepsOrder | src/utils/storage.ts:246-249 | assigning ranks keeps a points-sorted list sorted |
| Storage.GetLeaderboard | src/utils/storage.ts:224-233 | sorted by points descending; an entry occurs as often as stored when its university matches (or none is given) and not at all otherwise, with ranks untouched |
| Storage.Store.constructor | src/utils/storage.ts:118-125 | an empty store: every key reads as an empty list and no user is signed in |
| Storage.Store.SaveDeck | src/utils/storage.ts:127-136 | the deck replaces the first deck with its id in place, or is appended |
| Storage.Store.DeleteDeck | src/utils/storage.ts:138-142 | every deck with that id is removed and the rest keep their order |
| Storage.Store.SaveNote | src/utils/storage.ts:154-163 | the note replaces the first note with its id in place, or is appended |
| Storage.Store.DeleteNote | src/utils/storage.ts:165-169 | every note with that id is removed and the rest keep their order |
| Storage.Store.SaveUser | src/utils/storage.ts:182-193 | the user is upserted by id and the leaderboard is rebuilt from the new user list |
| Storage.Store.SetCurrentUser | src/utils/storage.ts:202-208 | the signed-in id becomes the argument |
| Storage.Store.ClearCurrentUser | src/utils/storage.ts:210-212 | nobody is signed in afterwards |
| Storage.Store.AddPoints | src/utils/storage.ts:214-221 | the users change as WithPoints says; the leaderboard is rebuilt only when the user exists |
| Storage.Store.UpdateLeaderboard | src/utils/storage.ts:235-252 | the stored leaderboard becomes the ranked, sorted entries of the current users |
| Storage.Store.SaveQuiz | src/utils/storage.ts:260-269 | the quiz replaces the first quiz with its id in place, or is appended |
| Storage.Store.InitializePublicDecks | src/utils/storage.ts:284-305 | nothing changes once a public deck exists; otherwise the 200 catalog decks and their quizzes are each upserted in order |
| Storage.InitializeStoresCatalog | src/utils/storage.ts:284-305 | after seeding, every catalog deck and every catalog quiz is in the store |
| Storage.Store.SaveDecks | src/utils/storage.ts:296-298 | upserting a list of decks one by one, in order |
| Storage.Store.SaveQuizzes | src/utils/storage.ts:301-303 | upserting a list of quizzes one by one, in order |
| Storage.Store.SaveFile | src/utils/storage.ts:333-344 | the file replaces the first file with its id in place, or is appended |
| Storage.Store.DeleteFile | src/utils/storage.ts:346-352 | every file with that id is removed and the rest keep their order |
| Storage.Store.SaveFolder | src/utils/storage.ts:383-392 | as written: the stored folders become the previous root folders only, upserted with the argument |
| Storage.SaveFolderDropsNested | src/utils/storage.ts:383-392 | as written, any nested folder other than the argument is lost by a save |
| Storage.Store.SaveFolderKeepingNested | src/utils/storage.ts:383-392 | corrected: the whole folder list is upserted with the argument |
| Storage.SaveFolderKeepsOthers | src/utils/storage.ts:383-392 | corrected, every other folder survives a save |
| Storage.Store.DeleteFolder | src/utils/storage.ts:394-405 | as written: files under the folder and its descendants are removed, and the final folder list is the list read on entry minus only the target |
| Storage.DeleteFolderOrphans | src/utils/storage.ts:394-405 | as written, a child folder survives its parent's deletion while the files inside it are deleted |
| Storage.Store.DeleteFolderTree | src/utils/storage.ts:394-405 | corrected: the state is that of the deletion that does not restore the entry snapshot |
| Storage.Store.DeleteFolderWalk | src/utils/storage.ts:394-405 | the recursive walk reaches the deletion specification, whichever final write it uses, and never adds a folder |
| Storage.Store.DeleteSubfolders | src/utils/storage.ts:399-400 | recursing into the child folders one after another reaches the specification of that loop |
| Storage.Store.DeleteChildFiles | src/utils/storage.ts:401-402 | exactly the files whose parent is the folder are removed |
| Storage.DeleteSpecExplores | src/utils/storage.ts:394-405 | the deletion visits a set closed under children, removes exactly the files under visited folders, and keeps every unvisited folder |
| Storage.ChildrenSpecExplores | src/utils/storage.ts:399-400 | after n children, every one of them has been visited, and the exploration facts hold |
| Storage.SubfoldersOfIsGetFolders | src/utils/storage.ts:399 | the child folders the source reads are the folders whose parent is the target, in order |
| Storage.ChildFileIds | src/utils/storage.ts:401-402 | the ids removed for the child files are exactly the ids of files whose parent is the folder |
| Storage.DeleteTreeFolders | src/utils/storage.ts:394-405 | corrected, the folders left are the folders minus every visited one |
| Storage.DeleteTreeNoOrphans | src/utils/storage.ts:394-405 | corrected, no remaining folder or file has a deleted folder as its parent |
| Seqs.Upsert | src/utils/storage.ts:127-136 | replaces the first element with the key in place, or appends when no element has it |
| Seqs.UpsertFrame | src/utils/storage.ts:127-136 | the saved record is present, the length grows by at most one, and elements with other keys stay in place |
| Seqs.UpsertIdempotent | src/utils/storage.ts:127-136 | saving the same record twice equals saving it once |
| Seqs.RemoveKey | src/utils/storage.ts:138-142 | keeps exactly the elements with other keys |
| Sorting.SortDesc | src/utils/storage.ts:246 | the result is sorted non-increasing by key and is a permutation of the input |
| Sorting.SortDescStable | src/utils/storage.ts:246 | elements with equal keys keep their relative order |
| Text.Slug | src/utils/publicDecks.ts:339 | no whitespace is left; a whitespace-free name is just lower-cased |
| Text.SlugWord | src/utils/publicDecks.ts:339 | a whitespace-free word at the front is lower-cased in place and the slug continues after it |
| Text.SlugRun | src/utils/publicDecks.ts:339 | a maximal whitespace run at the front, of any length, becomes exactly one '-' |
| Text.SlugTwoWords | src/utils/publicDecks.ts:339 | two words separated by any whitespace slug to the lowered words joined by one '-' |
| Text.Trim | src/pages/DeckEditor.tsx:30 | the result is the infix of the input after its leading whitespace, everything outside it is whitespace, and it starts and ends with non-whitespace; an already trimmed string is unchanged |
| Text.BlankIffTrimEmpty | src/pages/DeckEditor.tsx:30 | a string is all whitespace exactly when trimming leaves nothing (the two blank tests the pages use agree) |
| Text.ParseNatToString | src/pages/DeckEditor.tsx:33 | decimal formatting of a number reads back as the same number |
| Text.NatToStringInjective | src/pages/DeckEditor.tsx:33 | different numbers format to different decimal strings |
| PublicDecks.GenericText | src/utils/publicDecks.ts:304-326 | every generic deck has exactly five cards |
| PublicDecks.Catalog | src/utils/publicDecks.ts:328-344 | the library has 200 decks |
| PublicDecks.SubjectDecks | src/utils/publicDecks.ts:304-326 | the loop builds decks 1..10 of one subject, in order |
| PublicDecks.PushSubject | src/utils/publicDecks.ts:338-341 | appending one subject's decks extends the catalog prefix by the next ten decks |
| PublicDecks.GeneratePublicDecks | src/utils/publicDecks.ts:328-344 | the generated list is the catalog: ten decks per subject, in subject order |
| PublicDecks.CatalogShape | src/utils/publicDecks.ts:304-326 | each of the 200 decks is public, owned by "public", has the subject of its block of ten and a timestamp 9 - (n mod 10) days before now; with five authored cards per deck, every deck has five cards |
| PublicDecks.SlugOfWord | src/utils/publicDecks.ts:339 | the slug of a one-word subject is its lower-case form |
| PublicDecks.BaseIdAt | src/utils/publicDecks.ts:337-340 | every subject's id prefix is the fixed name the generators use |
| PublicDecks.BaseNamesDistinct | src/utils/publicDecks.ts:4-9 | the twenty id prefixes differ pairwise |
| PublicDecks.DeckIdInjective | src/utils/publicDecks.ts:308 | `<prefix>-deck-<i>` determines both the prefix and i when prefixes contain no dash |
| PublicDecks.CatalogIdsDistinct | src/utils/publicDecks.ts:304-344 | all 200 deck ids differ |
| PublicDecks.BaseOptions | src/utils/publicDecks.ts:352-357 | four options, the card's back first |
| PublicDecks.FirstCards | src/utils/publicDecks.ts:351 | at most the first five cards, as a prefix |
| PublicDecks.QuizzesFor | src/utils/publicDecks.ts:347-380 | one quiz per deck |
| PublicDecks.GeneratePublicQuizzes | src/utils/publicDecks.ts:347-380 | the loop pushes exactly the quiz of each deck, in deck order |
| PublicDecks.QuestionFacts | src/utils/publicDecks.ts:351-367 | question j has id `q-<deck>-<j>`, the card's front, 10 points, four options that are a permutation of the back and three distractors, and the correct index points at the back |
| PublicDecks.QuizzesMatchDecks | src/utils/publicDecks.ts:370-376 | quiz k has id `quiz-<deck id>`, the deck's id, owner "public" and the deck's creation time |
| PublicDecks.QuizIdsDistinct | src/utils/publicDecks.ts:370-376 | distinct deck ids give distinct quiz ids |
| AiProxy.Field | api/ai.ts:34 | a property exists only on an object that has that key |
| AiProxy.DefaultCount | api/ai.ts:34 | the default count is 10 for flashcards and 5 otherwise |
| AiProxy.SliceLen | api/ai.ts:120 | `slice(0, count)` keeps at most the list and at most count items, exactly count when it fits |
| AiProxy.Handle | api/ai.ts:10-72 | OPTIONS gives 204, other non-POST methods 405, a missing key 500; only 200, 204, 400, 405 and 500 occur, and 200 exactly with a result list |
| AiProxy.HandleBody | api/ai.ts:33-62 | a readable body gives 200 with results, 400 or 500, and 200 exactly with a result list |
| AiProxy.KeyCheckedFirst | api/ai.ts:22-30 | without a key the answer is the same 500 whatever the body |
| AiProxy.BadRequests | api/ai.ts:36-62 | a missing, non-string or empty text gives 400 invalid text; a good text with an unknown action gives 400 invalid action |
| AiProxy.OnlyPrefixSent | api/ai.ts:105 | only the first 12000 characters of the text reach the language model |
| AiProxy.FlashcardAnswer | api/ai.ts:43-49 | a flashcard answer comes only from the flashcard action, holds at most count cards for a non-negative count, and at most 10 when no count is given |
| AiProxy.QuizAnswer | api/ai.ts:51-57 | a quiz answer comes only from the quiz action, holds at most 5 questions when no count is given, and every correct index is in 0..3 |
| AiProxy.ReplyText | api/ai.ts:97 | the text handed to the parser is never empty: a missing or empty reply becomes "[]" |
| AiProxy.StripJsonFences | api/ai.ts:160 | never lengthens the text, and a text in which no "```jso" starts is left unchanged |
| AiProxy.StripFences | api/ai.ts:160 | never lengthens the text, no "```" is left anywhere in the result, and the result starts with one or two backticks only where the input does |
| AiProxy.FencedReplyCleaned | api/ai.ts:160 | a reply "```json" + body + "```" with a backtick-free body cleans to the trimmed body |
| AiProxy.NoFencesUnchanged | api/ai.ts:160 | text without backticks passes both fence removals unchanged |
| AiProxy.ParseJsonArray | api/ai.ts:159-167 | an array as parsed, any other value as a singleton, and nothing on a parse failure |
| AiProxy.StrField | api/ai.ts:121-122 | the string value of the property, or the fallback when it is null or missing |
| AiProxy.NormalizeCards | api/ai.ts:119-123 | the first count items, each turned into a card with "Question"/"Answer" fallbacks |
| AiProxy.CorrectIndex | api/ai.ts:155 | clamped to 0..3, a number in range kept, anything but a number giving 0 |
| AiProxy.Options | api/ai.ts:154 | the items of an array as strings, or A, B, C, D when it is not an array |
| AiProxy.NormalizeQuestions | api/ai.ts:151-156 | the first count items, each normalised into a question |
| Templates.Run | src/pages/NoteEditor.tsx:175-187 | a `for` loop of positions: start, start + step, … exactly while below the limit |
| Templates.RuledLines | src/pages/NoteEditor.tsx:175-196 | rules at 2s, 3s, … strictly below height - 20, with the margin at x = 40 |
| Templates.GridLines | src/pages/NoteEditor.tsx:287-324 | grid lines from 0 at the cell size in both directions, and heavy lines every five cells when asked |
| Templates.StaffLines | src/pages/NoteEditor.tsx:266-286 | staves start at 80 and repeat every 100 below height - 40, each with five lines 20 apart |
| Templates.DrawTemplate | src/pages/NoteEditor.tsx:170-430 | each template's layout: spacings 28/34/22 for ruled paper, 25/15/30 for grids (heavy lines only on graph paper), dots every 20, the Cornell split, staves and to-do rows |
| Templates.RunDetermined | src/pages/NoteEditor.tsx:175-187 | start, step and limit determine the positions uniquely |
| Templates.RunIncreasing | src/pages/NoteEditor.tsx:175-187 | positions strictly increase |
| Templates.HeavyEveryFifth | src/pages/NoteEditor.tsx:287-324 | the k-th heavy line is the 5k-th light line, and every fifth light line is heavy |
| CanvasImages.TopImageSpec | src/pages/NoteEditor.tsx:432-442 | the hit image is the highest-index image whose closed box holds the point, and none iff no box holds it |
| CanvasImages.ImageAtPoint | src/pages/NoteEditor.tsx:432-442 | the backwards loop returns that topmost hit |
| CanvasImages.FirstNearSpec | src/pages/NoteEditor.tsx:444-460 | the handle found is the first, in order, whose square around its corner holds the point, and none iff no square holds it |
| CanvasImages.ResizeHandleAt | src/pages/NoteEditor.tsx:444-460 | the loop over nw, ne, sw, se returns that first handle |
| CanvasImages.Replace | src/pages/NoteEditor.tsx:539-546 | only images with the id change, by the given update |
| CanvasImages.Moved | src/pages/NoteEditor.tsx:535-551 | only the selected image moves, by exactly (dx, dy), with no clamping and no other field changed |
| CanvasImages.MoveBack | src/pages/NoteEditor.tsx:535-551 | moving back by (-dx, -dy) restores the images |
| CanvasImages.MoveTwice | src/pages/NoteEditor.tsx:535-551 | two moves add up to one |
| CanvasImages.FindImage | src/pages/NoteEditor.tsx:553-556 | an image with the id, and none exactly when no image has it |
| CanvasImages.Clamp | src/pages/NoteEditor.tsx:588-597 | both sides stay at least 50 with height × aspect = width, and a size already above 50 is kept |
| CanvasImages.ResizeBoxSpec | src/pages/NoteEditor.tsx:553-608 | the new box is at least 50 on both sides and keeps the original aspect ratio; without clamping its width follows the horizontal drag and the opposite corner stays fixed |
| CanvasImages.Resized | src/pages/NoteEditor.tsx:553-608 | only the selected image changes, to the new box, keeping its id, picture and original size |
| CanvasImages.MovedKeepsAspect | src/pages/NoteEditor.tsx:535-551 | moving keeps every image's positive original size |
| CanvasImages.ResizedKeepsAspect | src/pages/NoteEditor.tsx:553-608 | resizing keeps every image's positive original size |
| CanvasImages.FitSize | src/pages/NoteEditor.tsx:1000-1013 | the fitted size is within 0.6 of the canvas on both sides, keeps the aspect ratio, and is unchanged when it already fits |
| CanvasImages.ScaleTo | src/pages/NoteEditor.tsx:1006-1013 | one scaling step: within the maximum, no larger than the original, same aspect ratio, unchanged when it fits |
| CanvasImages.Placed | src/pages/NoteEditor.tsx:1015-1024 | the inserted image is centred on the canvas with the fitted size and its original size recorded |
| CanvasImages.Deleted | src/pages/NoteEditor.tsx:1087-1093 | removes exactly the images with the id and keeps the others |
| NoteEditor.PenStroke | src/pages/NoteEditor.tsx:673-697 | the eraser cuts out at 4× width with no colour; the highlighter draws at 3× width, translucent; the pen draws at the width, opaque |
| NoteEditor.KeyCommandOf | src/pages/NoteEditor.tsx:1079-1099 | Ctrl/Cmd+Z undoes, Ctrl/Cmd+Y or Ctrl/Cmd+Shift+Z redoes, Delete or Backspace deletes |
| NoteEditor.PushedShape | src/pages/NoteEditor.tsx:794-816 | a commit keeps the history up to the cursor, appends the snapshot last and drops the oldest beyond 50; the cursor ends on the new snapshot |
| NoteEditor.PushedBounded | src/pages/NoteEditor.tsx:794-816 | from at most 50 snapshots the history stays at most 50 |
| NoteEditor.PushThenUndo | src/pages/NoteEditor.tsx:794-836 | after a commit, undo returns to the snapshot that was current before it |
| NoteEditor.Editor.constructor | src/pages/NoteEditor.tsx:44-61 | the pen tool, black, width 3, no images, an empty history and the cursor at -1 |
| NoteEditor.Editor.InitHistory | src/pages/NoteEditor.tsx:129-130 | the history is the one initial snapshot with the cursor on it |
| NoteEditor.Editor.SaveToHistory | src/pages/NoteEditor.tsx:794-816 | the history and cursor become those the commit rule gives, keeping the cursor within the history |
| NoteEditor.Editor.Undo | src/pages/NoteEditor.tsx:818-836 | the cursor moves back one only when above 0, the snapshots stay, and the snapshot to repaint is the new current one |
| NoteEditor.Editor.Redo | src/pages/NoteEditor.tsx:838-856 | the cursor moves forward one only when below the end, the snapshots stay, and the snapshot to repaint is the new current one |
| NoteEditor.Editor.SelectTool | src/pages/NoteEditor.tsx:1162-1187 | the tool changes; choosing the shape tool with no shape picks the rectangle |
| NoteEditor.Editor.SelectShape | src/pages/NoteEditor.tsx:1196-1217 | the chosen shape becomes current |
| NoteEditor.Editor.PickImage | src/pages/NoteEditor.tsx:466-489 | a hit selects the topmost image and starts a resize on a handle or a move elsewhere; a miss clears the selection |
| NoteEditor.Editor.StartDrawing | src/pages/NoteEditor.tsx:462-523 | mouse-down routing: image and lasso tools pick images, the shape tool records the start point, the pen tools start a stroke, and other state is kept |
| NoteEditor.Editor.DragSelected | src/pages/NoteEditor.tsx:535-551 | the selected image moves by the mouse's change since the last position, which becomes the mouse position |
| NoteEditor.Editor.ResizeSelected | src/pages/NoteEditor.tsx:553-608 | the selected image takes the aspect-locked resized box for the horizontal drag |
| NoteEditor.Editor.Draw | src/pages/NoteEditor.tsx:525-697 | as written: during a shape preview nothing changes, the last position included; otherwise a move, a resize or a pen segment |
| NoteEditor.Editor.DrawTracked | src/pages/NoteEditor.tsx:525-697 | corrected: the shape preview also records the mouse position as the last position |
| NoteEditor.Editor.StopDrawing | src/pages/NoteEditor.tsx:858-947 | ending a move or resize commits a snapshot; ending a shape commits it from its start point to the last position when a snapshot exists; ending a stroke commits a snapshot; otherwise nothing is committed |
| NoteEditor.Editor.ClearCanvas | src/pages/NoteEditor.tsx:949-958 | no images, no selection, and a new snapshot committed |
| NoteEditor.Editor.InsertImage | src/pages/NoteEditor.tsx:989-1037 | a non-image file is ignored; otherwise the fitted, centred image is appended last, selected and committed |
| NoteEditor.Editor.KeyDown | src/pages/NoteEditor.tsx:1079-1099 | undo and redo keys move the cursor as Undo and Redo do; Delete and Backspace remove exactly the selected image and clear the selection, only when an image is selected and no gesture is active |
| NoteEditor.ShapeDragAsWritten | src/pages/NoteEditor.tsx:610-671 | as written, a rectangle dragged from (x0, y0) to (x1, y1) is committed from (x0, y0) to (x0, y0) |
| NoteEditor.ShapeDragTracked | src/pages/NoteEditor.tsx:610-671 | corrected, the same drag commits the rectangle from (x0, y0) to (x1, y1) |
| Home.LastSegmentSpec | src/pages/Home.tsx:197 | the text after the last dot: it holds no dot, ends the name, and is preceded by a dot unless it is the whole name |
| Home.FileType | src/pages/Home.tsx:196-202 | pdf gives pdf, ppt/pptx give pptx, xls/xlsx give xlsx, anything else other |
| Home.ExtensionAfterLastDot | src/pages/Home.tsx:197 | a name ending in ".<ext>" with a dot-free ext is classified by ext |
| Home.LowerLastSegment | src/pages/Home.tsx:197 | lower-casing and taking the last segment commute |
| Home.FileTypeIgnoresCase | src/pages/Home.tsx:196-202 | the file type does not depend on letter case |
| Home.DeckColor | src/pages/Home.tsx:346-350 | one of the eight palette colours, chosen by the sum of character codes mod 8 |
| Home.DeckColorOrderFree | src/pages/Home.tsx:346-350 | names with the same characters in another order get the same colour |
| Home.FileSizeLabel | src/pages/Home.tsx:323-327 | bytes below 1024, KB below 1 MiB, MB beyond; the amount times the unit is the size, and a KB or MB amount is at least 1 |
| Home.WithStatus | src/pages/Home.tsx:110-117 | a deck is completed iff some quiz of it has a completion time, and the quiz shown is such a quiz |
| Home.DecksWithStatus | src/pages/Home.tsx:107-117 | exactly the user's decks, in order, each completed iff one of the user's quizzes completed it |
| Home.TabsPartition | src/pages/Home.tsx:141-143 | the Completed and Active tabs split the decks, every deck in exactly one of them |
| Home.UpDescends | src/pages/Home.tsx:132 | each parent step of the breadcrumb walk lowers the acyclicity measure |
| Home.ChainCons | src/pages/Home.tsx:131 | putting the parent in front keeps each element the parent of the next |
| Home.FolderPath | src/pages/Home.tsx:127-134 | the breadcrumb is empty iff there is no current folder; otherwise it starts at a root folder, ends at the current one, and each element is the parent of the next |
| Home.BreadcrumbUnique | src/pages/Home.tsx:127-134 | two such breadcrumbs ending at the same folder are equal |
| Home.NoteDataChoice | src/pages/Home.tsx:244 | a note with a non-empty drawing is stored and sized by the drawing whatever its text; without one, or with an empty one, by its text |
| Home.NoteFile | src/pages/Home.tsx:244-257 | the new file for a note: id `file-note-<id>`, name `<title or Untitled Note>.note`, the size of the note's data, in the target folder |
| Home.DroppedNoteFile | src/pages/Home.tsx:231-259 | a linked file only changes folder and update time; otherwise the new note file |
| Home.UpsertListed | src/pages/Home.tsx:231-259 | a saved file appears in its folder's listing and other files stay |
| Home.DroppedNoteListed | src/pages/Home.tsx:231-259 | after a note drop its file is listed in the target folder and other files stay |
| Home.MovedFileListed | src/pages/Home.tsx:215-222 | after a file move it is listed in the target folder and other files stay |
| Home.RedoQuiz | src/pages/Home.tsx:329-344 | as written: only the last completed quiz of the user for the deck is removed |
| Home.RedoKeepsEarlier | src/pages/Home.tsx:333-341 | as written, with two completed quizzes the earlier one survives the redo |
| Home.RedoQuizAll | src/pages/Home.tsx:329-344 | corrected: every completed quiz of the user for the deck is removed |
| Home.RedoAllClears | src/pages/Home.tsx:333-341 | corrected, no completed quiz for the deck is left and every other quiz stays |
| Home.HomePage.constructor | src/pages/Home.tsx:18-31 | the root folder and nothing being dragged |
| Home.HomePage.OpenFolder | src/pages/Home.tsx:505-510 | the clicked folder, or the root, becomes current |
| Home.HomePage.DragStart | src/pages/Home.tsx:204-206 | the dragged item is recorded |
| Home.HomePage.SaveNoteAt | src/pages/Home.tsx:473-505 | a note dropped on a folder is filed there, by moving the user's linked root file or creating one; an unknown note changes nothing |
| Home.HomePage.Drop | src/pages/Home.tsx:212-262 | a file moves only if its parent differs from the target; a folder moves only if its parent differs and it is not the target, through the root-only folder save; a note is filed in the target; the drag always ends |
| Home.HomePage.DropFromPage | src/pages/Home.tsx:569-605 | with a note id and a signed-in user the note is filed in the target; otherwise the pending drag is handled as an ordinary drop, which ends it |
| Home.HomePage.CreateFolder | src/pages/Home.tsx:145-161 | a blank name or no user changes nothing; otherwise a folder with the trimmed name is saved in the current folder |
| Home.HomePage.UploadFile | src/pages/Home.tsx:163-194 | a signed-in upload is saved in the current folder with its detected file type |
| QuizMode.UserCopy | src/pages/QuizMode.tsx:52-64 | the user's copy keeps the public questions and starts fresh: the user's id, started now, at question 0, with no answers |
| QuizMode.GeneratedQuiz | src/pages/QuizMode.tsx:66-88 | one question per generated one, in order, with id `q-<i>` and 10 points, started now at question 0 |
| QuizMode.Open | src/pages/QuizMode.tsx:32-91 | the user's quiz is reused and resumed at its saved index, saved only when it had no start time; otherwise the public quiz is copied, or a quiz is generated, and saved |
| QuizMode.ReopenResumes | src/pages/QuizMode.tsx:32-91 | after opening, the user's quiz for the deck is the one opened |
| QuizMode.Answered | src/pages/QuizMode.tsx:122-128 | exactly one answer is appended and nothing else changes |
| QuizMode.Percentage | src/pages/QuizMode.tsx:167 | round(score / (n × 10) × 100) |
| QuizMode.PercentageRange | src/pages/QuizMode.tsx:167 | the percentage lies in 0..100 and is 100 for a perfect score |
| QuizMode.QuizPage.constructor | src/pages/QuizMode.tsx:9-20 | no deck or quiz, the first question, no selection, score 0 |
| QuizMode.QuizPage.Load | src/pages/QuizMode.tsx:22-30 | an empty or unknown deck id changes nothing; otherwise the deck is shown with the quiz Open settles on, resumed at its saved question and stored when Open says so |
| QuizMode.QuizPage.SelectAnswer | src/pages/QuizMode.tsx:104-133 | ignored while the result shows; otherwise correct iff the index matches, the score and the earned points grow by the points only when correct, exactly one answer is recorded and saved, and only a correct answer gives the signed-in user the points, with the leaderboard rebuilt when that user is stored |
| QuizMode.QuizPage.Award | src/pages/QuizMode.tsx:110-119 | score and earned points grow by the points; the signed-in user gains them in the store, and the leaderboard is rebuilt from the new users when that user is stored and unchanged otherwise |
| QuizMode.QuizPage.Next | src/pages/QuizMode.tsx:135-164 | before the last question it advances and clears the selection, saving the index; after the last it saves the completion time and score and clears the index |
| QuizMode.QuizPage.Retake | src/pages/QuizMode.tsx:183-191 | back to the first question with no selection, score 0 and the quiz not completed |
| StudyMode.ReviewDelay | src/pages/StudyMode.tsx:91-99 | 7 days for easy, 1 for hard, 3 for anything else, in milliseconds |
| StudyMode.HarderSooner | src/pages/StudyMode.tsx:91-99 | harder cards come back sooner |
| StudyMode.Rated | src/pages/StudyMode.tsx:54-59 | the card gets the chosen difficulty, reviewed now, due after its delay, with its text unchanged |
| StudyMode.ReplaceKeepsPermutation | src/pages/StudyMode.tsx:62-75 | replacing a card by id in two orders of the same cards gives two orders of the same cards |
| StudyMode.StudyPage.constructor | src/pages/StudyMode.tsx:10-13 | no deck, the first card, front up, no cards |
| StudyMode.StudyPage.Load | src/pages/StudyMode.tsx:15-25 | an empty or unknown deck id changes nothing; otherwise the deck is shown with a shuffle of its cards |
| StudyMode.StudyPage.Flip | src/pages/StudyMode.tsx:101-103 | the card turns over |
| StudyMode.StudyPage.Answer | src/pages/StudyMode.tsx:52-89 | the shown card is rated in the deck and in the study order, the deck is saved, and the next card shows front up, or the session ends after the last; the order stays a permutation of the deck |
| StudyMode.StudyPage.Restart | src/pages/StudyMode.tsx:105-110 | the first card, front up, in a new permutation of the deck's cards |
| Progress.Round | src/pages/Progress.tsx:44 | `Math.round`: the nearest integer, halves rounded up |
| Progress.Percent | src/pages/Progress.tsx:42-44 | round(current / total × 100), and 0 with no questions |
| Progress.PercentRange | src/pages/Progress.tsx:42-44 | the progress lies in 0..100, is 0 at the start and 100 at the end |
| Progress.Row | src/pages/Progress.tsx:40-53 | the row shows the 1-based question number, the total, the percentage and the quiz's deck, and no deck iff none has its id |
| Progress.Mine | src/pages/Progress.tsx:30-35 | exactly the user's quizzes that are started and not completed |
| Progress.LoadProgressSorted | src/pages/Progress.tsx:26-59 | nothing without a user; otherwise the rows are sorted by start time descending, a permutation of the user's rows, keeping ties in order |
| Progress.LoadProgressOnlyUnfinished | src/pages/Progress.tsx:26-59 | every row is one of the user's unfinished quizzes |
| Progress.LoadProgressComplete | src/pages/Progress.tsx:26-59 | every unfinished quiz of the user has its row |
| Progress.StartKeyIsStart | src/pages/Progress.tsx:56 | a listed quiz sorts by its own start time |
| Progress.ProgressColor | src/pages/Progress.tsx:76-81 | green from 80, yellow from 50, orange from 25, red below |
| Progress.ColorMonotone | src/pages/Progress.tsx:76-81 | more progress never gives a lower colour level |
| Progress.AgoPlural | src/pages/Progress.tsx:70-72 | "… ago" ends in "s ago" iff the count exceeds 1 |
| Progress.FormatDate | src/pages/Progress.tsx:61-74 | "Just now" under a minute, then minutes, hours and days, and the locale date from a week |
| NotesPage.LoadNotesListed | src/pages/Notes.tsx:16-21 | exactly the user's notes, by update time descending, keeping ties in order |
| NotesPage.LinkedFile | src/pages/Notes.tsx:28-29 | a file of the user's root listing linked to the note, and none iff no such file exists |
| NotesPage.FilesAfterDelete | src/pages/Notes.tsx:26-32 | the linked file is removed when there is one, otherwise nothing |
| NotesPage.DeleteKeepsFilesInFolders | src/pages/Notes.tsx:28-32 | a linked file inside a folder is not found, so it stays |
| NotesPage.DeleteRemovesLinkedFile | src/pages/Notes.tsx:26-32 | the linked file is gone and every other file stays |
| NotesPage.SavedFile | src/pages/Notes.tsx:52-65 | a root file `file-note-<id>` linked to the note, with the size of its data |
| NotesPage.SaveThenLinked | src/pages/Notes.tsx:44-67 | after saving, the note has a linked file |
| NotesPage.TextPreview | src/pages/Notes.tsx:169-171 | "Empty note..." for no content, the content when short, else its first 150 characters and "..." |
| NotesPage.TextPreviewShape | src/pages/Notes.tsx:169-171 | the preview is at most 153 characters and starts with the content's first 150 |
| NotesPage.NotePreviewShape | src/pages/Notes.tsx:161-173 | the card is a drawing exactly when the handwriting is non-empty, showing the data the note's file stores; otherwise an excerpt of at most 153 characters starting with the text's first 150, or "Empty note..." |
| NotesPage.FormatDate | src/pages/Notes.tsx:81-91 | "Today", "Yesterday", "n days ago" below a week (a negative n for future times), the locale date from a week on |
| NotesPage.NotesList.constructor | src/pages/Notes.tsx:8 | an empty list |
| NotesPage.NotesList.Load | src/pages/Notes.tsx:16-21 | the list becomes the signed-in user's sorted notes |
| NotesPage.NotesList.DeleteNote | src/pages/Notes.tsx:23-35 | the note and its linked root file are removed and the list is reloaded |
| NotesPage.NotesList.SaveToFiles | src/pages/Notes.tsx:37-69 | refused without a user or with an existing linked file; otherwise the root file is saved |
| DeckEditor.NewCard | src/pages/DeckEditor.tsx:32-37 | a card with id now, the typed sides, medium difficulty and no reviews |
| DeckEditor.EditedCards | src/pages/DeckEditor.tsx:61-65 | only the front and back of the cards with the id change |
| DeckEditor.DeleteUndoesAdd | src/pages/DeckEditor.tsx:39-48 | deleting a card just added restores the list |
| DeckEditor.EditIdempotent | src/pages/DeckEditor.tsx:61-65 | applying the same edit twice equals applying it once |
| DeckEditor.EditingKeepsFilled | src/pages/DeckEditor.tsx:29-70 | adding or editing with non-blank sides keeps every card's sides non-blank |
| DeckEditor.Editor.constructor | src/pages/DeckEditor.tsx:10-17 | no deck, no cards, empty forms and no edit in progress |
| DeckEditor.Editor.Load | src/pages/DeckEditor.tsx:19-27 | an empty or unknown deck id changes nothing; otherwise the deck and its cards are loaded |
| DeckEditor.Editor.TypeNewCard | src/pages/DeckEditor.tsx:12-14 | the add form shows the typed sides |
| DeckEditor.Editor.AddCard | src/pages/DeckEditor.tsx:29-44 | a blank side changes nothing; otherwise exactly one medium card is appended and the form is cleared |
| DeckEditor.Editor.DeleteCard | src/pages/DeckEditor.tsx:46-50 | exactly the cards with the id are removed, the rest keep their order |
| DeckEditor.Editor.StartEdit | src/pages/DeckEditor.tsx:52-56 | the card's id and sides fill the edit form |
| DeckEditor.Editor.TypeEdit | src/pages/DeckEditor.tsx:16-17 | the edit form shows the typed sides |
| DeckEditor.Editor.SaveEdit | src/pages/DeckEditor.tsx:58-70 | without an edit or with a blank side nothing changes; otherwise only the matching card's sides change and the edit ends |
| DeckEditor.Editor.CancelEdit | src/pages/DeckEditor.tsx:72-76 | the edit ends with the form cleared |
| DeckEditor.Editor.SaveDeck | src/pages/DeckEditor.tsx:78-89 | without a loaded deck nothing is stored; otherwise the deck is upserted with the current cards and a new update time, its other fields kept |
| PublicLibrary.FilterDecks | src/pages/PublicDecks.tsx:34-53 | exactly the decks of the chosen subject (any for All) whose name, description or subject contains the lower-cased query, when it is not blank |
| PublicLibrary.FilterDecksInOrder | src/pages/PublicDecks.tsx:34-53 | the result is a subsequence of the decks in their order |
| PublicLibrary.NoFilterShowsAll | src/pages/PublicDecks.tsx:37-50 | All with an empty query shows every deck |
| PublicLibrary.TotalUpdate | src/pages/PublicDecks.tsx:59 | raising one subject's count raises the total by the same amount |
| PublicLibrary.TallyFound | src/pages/PublicDecks.tsx:57-60 | counting a deck of a listed subject adds one to that subject |
| PublicLibrary.TallyNew | src/pages/PublicDecks.tsx:57-60 | counting a deck of a new subject adds that subject with count 1 |
| PublicLibrary.TallyStep | src/pages/PublicDecks.tsx:57-60 | counting one more deck keeps the counts right |
| PublicLibrary.SubjectStats | src/pages/PublicDecks.tsx:55-62 | one entry per subject ("Other" when missing), counting its decks, distinct subjects, the counts summing to the number of decks |
| Auth.FilterUniversities | src/pages/Auth.tsx:80-82 | exactly the universities containing the search, ignoring case, in list order |
| Auth.EmptySearchListsAll | src/pages/Auth.tsx:80-82 | an empty search lists every university |
| Auth.SearchIgnoresCase | src/pages/Auth.tsx:80-82 | the listing does not depend on the search's letter case |
| Auth.ActualUniversity | src/pages/Auth.tsx:104-106 | the custom name when "Others" is chosen, else the choice |
| Auth.Login | src/pages/Auth.tsx:113-126 | succeeds iff some user has the email, with that user; the password is never compared |
| Auth.NewUser | src/pages/Auth.tsx:149-161 | a user with id now, 0 points and the default card theme |
| Auth.SignUp | src/pages/Auth.tsx:128-167 | fails on an empty field, on a blank custom university and on a taken email; otherwise creates the new user |
| Auth.SignUpErrors | src/pages/Auth.tsx:136-147 | the university error occurs exactly for a non-empty but blank custom name, and the email error only for a taken email |
| Auth.SignUpThenLogin | src/pages/Auth.tsx:128-167 | after signing up, logging in with the same email finds the new user |
| Auth.SignUpUniversity | src/pages/Auth.tsx:129-153 | a new user's university is never empty, and is the non-blank custom name when "Others" was chosen |
| Auth.AuthForm.constructor | src/pages/Auth.tsx:67-76 | the login form, empty fields, no error, not loading |
| Auth.AuthForm.SelectUniversity | src/pages/Auth.tsx:95-102 | the choice is set and the search closed; any choice but "Others" clears the custom name |
| Auth.AuthForm.Submit | src/pages/Auth.tsx:108-170 | the outcome is Login or SignUp; a failure shows its error and changes no stored data; a success signs the user in, and a sign-up also saves the user and rebuilds the leaderboard |

## Left out

- Canvas pixel work is left out as browser graphics: fills, strokes, arcs, compositing, `globalAlpha`, `drawImage`, `toDataURL`, and image and file decoding. Snapshots are opaque strings and images are records.
- Asynchronous timing is left out: the canvas-size retry with its 800×600 fallback, the deferred history start, `onload` callbacks, and the dynamic `import('./publicDecks')` inside `initializePublicDecks`. Storage.Store.InitializePublicDecks seeds the catalog before it returns, while the source stores it only after the call has returned, so a first visit to the public library can list nothing. The shape commit and the image insert happen at once, and inserting takes the decoded size as a parameter.
- NoteEditor.Editor.InsertImage: a decoded picture with a zero width or height, such as an SVG without an intrinsic size, is not modelled. The source would store it with `originalWidth` or `originalHeight` 0, and its resize then divides by that 0. The aspect facts (CanvasImages.MovedKeepsAspect, CanvasImages.ResizedKeepsAspect) hold for pictures of positive size.
- The circle, arrow and shape-preview geometry is floating-point trigonometry. Shapes are committed as a kind with two points.
- The undo and redo repaint is returned as the snapshot to draw. The image layer is not redrawn, as in the code.
- `devicePixelRatio` scaling is left out. The canvas size is a parameter.
- NoteEditor `saveNote`, `handleShare` and `exportNote` are store writes and I/O (Web Share, downloads) outside the editor state. They are not modelled.
- `localStorage`, `JSON.parse` and `JSON.stringify`, `fetch`, the Groq call, `atob` and `Blob` are foreign code. The store is a class of sequences and the parse result is a parameter.
- `Date.now()` is a parameter. One handler reads one `now`, even where the source calls `Date.now()` several times within it.
- `Math.random()` shuffles are arbitrary permutation parameters.
- `toFixed` and `toLocaleDateString` are formatting only. FileSizeLabel gives the unit and the exact amount, and FormatDate gives the locale case as a timestamp.
- `Math.round` is modelled over `real`.
- Strings are sequences of UTF-16 code units as `char`. Lower-casing covers only ASCII letters.
- Confirmation dialogs are taken as confirmed and alerts as shown. The model covers navigation only as the end of a session (`finished`).
- The Notes page's drag start is left out: it only puts the note id on the drag payload, which Home.HomePage.DropFromPage receives.
- The PublicDecks page's tab switching and the reload of its deck list are view state. They are not modelled.
- PublicDecks.GeneratePublicDecks: the names, descriptions and cards of the five hand-written subjects (math, physics, chemistry, biology, computer science) are the parameter `authored`, not their text. PublicDecks.CatalogShape proves five cards per deck under the condition that each of those authored decks has five cards.
- PublicLibrary.SubjectStats: states the counts and the distinct subjects, not the insertion order in which a `Map` lists them.
- The Auth page reads the password only for the empty-field check, as the code does.
- The university dropdown's open/close mouse handling is pure view state.
- The two-second refresh timers of Home and Progress only re-run the loaders that are modelled.
- JSON numbers in the AI proxy are integers; fractional counts are not modelled.
- AiProxy.CountOf: a boolean count is read as 1 or 0 and any other non-number as 0. A numeric string such as "3", which `slice` would convert to 3, is also read as 0.
- Files outside the modelled pages are view or routing code: App, Layout, Sidebar, Landing, Profile, Leaderboard, Flashcards, PDFUpload and the client-side AI service. They are not part of this model.

## Findings

| source | as written | input that shows it | evidently intended | confidence | as-written member | corrected member |
|---|---|---|---|---|---|---|
| src/utils/storage.ts:383-392 | `saveFolder` reads the folder list through `getFolders()`, which keeps only root folders, and writes that back | a nested folder B (parent A), then saving any folder | every folder other than the one saved stays stored | not executed | Storage.SaveFolderDropsNested | Storage.SaveFolderKeepsOthers |
| src/utils/storage.ts:394-405 | `deleteFolder` reads the folder list on entry, recursively deletes the children, then writes the entry copy minus only the target, which restores the deleted children | folders A and B with B's parent A; deleting A | the target and all its descendants are removed, and no folder or file is left pointing at a deleted folder | not executed | Storage.DeleteFolderOrphans | Storage.DeleteTreeNoOrphans |
| src/pages/NoteEditor.tsx:610-671 | during a shape preview `draw` returns before updating `lastPos`, and `stopDrawing` takes `lastPos` as the shape's end | shape tool, press at (x0, y0), drag to (x1, y1), release | the shape spans from the press point to the release point | not executed | NoteEditor.ShapeDragAsWritten | NoteEditor.ShapeDragTracked |
| src/pages/Home.tsx:333-341 | each `forEach` round writes `allQuizzes` minus that one quiz, so each write undoes the previous one | two completed quizzes of the user for the same deck | taking a quiz again removes every completed quiz for the deck | not executed | Home.RedoKeepsEarlier | Home.RedoAllClears |
