/**
 * The persisted record shapes of the study app (decks of flashcards, notes,
 * users, quizzes, leaderboard entries, files and folders). Optional fields
 * are `Option`s; the id of every record is exposed as a key function so the
 * store's upsert and delete operations can be stated once for all of them.
 */
module Records {
  import opened Wrappers

  datatype Difficulty = Easy | Medium | Hard

  datatype Flashcard = Flashcard(
    id: string,
    front: string,
    back: string,
    difficulty: Difficulty,
    lastReviewed: Option<int>,
    nextReview: Option<int>)

  datatype Deck = Deck(
    id: string,
    name: string,
    description: string,
    cards: seq<Flashcard>,
    createdAt: int,
    updatedAt: int,
    userId: string,
    pdfSource: Option<string>,
    isAIGenerated: Option<bool>,
    isPublic: Option<bool>,
    subject: Option<string>)

  /** The eleven page templates a note can be drawn on. */
  datatype Template =
    | Blank | Lined | Grid | Dotted | Cornell | Music
    | GraphSmall | GraphLarge | Todo | WideRuled | NarrowRuled

  datatype Note = Note(
    id: string,
    title: string,
    content: string,
    handwriting: Option<string>,
    template: Template,
    createdAt: int,
    updatedAt: int,
    userId: string,
    isBookmarked: Option<bool>)

  datatype Theme = Theme(backgroundColor: string, textColor: string, accentColor: string)

  datatype User = User(
    id: string,
    email: string,
    name: string,
    university: string,
    major: Option<string>,
    profileImage: Option<string>,
    points: int,
    studentCardTheme: Option<Theme>,
    createdAt: int)

  datatype Answer = Answer(questionId: string, selectedAnswer: int)

  datatype Question = Question(
    id: string,
    question: string,
    options: seq<string>,
    correctAnswer: int,
    points: int)

  datatype Quiz = Quiz(
    id: string,
    deckId: string,
    questions: seq<Question>,
    createdAt: int,
    userId: string,
    startedAt: Option<int>,
    completedAt: Option<int>,
    currentQuestionIndex: Option<int>,
    answers: Option<seq<Answer>>,
    score: Option<int>)

  datatype LeaderboardEntry = LeaderboardEntry(
    userId: string,
    userName: string,
    university: string,
    points: int,
    rank: int)

  /** The `type` field of a file item. */
  datatype FileKind = Pdf | Pptx | Xlsx | NoteKind | DeckKind | OtherKind

  datatype FileItem = FileItem(
    id: string,
    name: string,
    kind: FileKind,
    mimeType: string,
    data: string,
    size: int,
    parentId: Option<string>,
    userId: string,
    createdAt: int,
    updatedAt: int,
    noteId: Option<string>,
    deckId: Option<string>)

  datatype Folder = Folder(
    id: string,
    name: string,
    parentId: Option<string>,
    userId: string,
    createdAt: int,
    updatedAt: int)

  /** JavaScript truthiness of an optional number: present and non-zero. */
  predicate Truthy(o: Option<int>) {
    o.Some? && o.value != 0
  }

  function CardId(c: Flashcard): string { c.id }
  function DeckId(d: Deck): string { d.id }
  function NoteId(n: Note): string { n.id }
  function UserId(u: User): string { u.id }
  function QuizId(q: Quiz): string { q.id }
  function FileId(f: FileItem): string { f.id }
  function FolderId(f: Folder): string { f.id }
  function EntryPoints(e: LeaderboardEntry): int { e.points }
}
