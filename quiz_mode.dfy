/**
 * The quiz page: it opens the user's quiz for a deck (resuming a stored one,
 * copying the public one, or building one from generated questions), takes
 * one answer per question, and records progress, the score and completion
 * in the store.
 */
module QuizMode {
  import opened Wrappers
  import opened Records
  import Text
  import Seqs
  import opened Storage

  /** A question as the generator returns it. */
  datatype GeneratedQuestion = GeneratedQuestion(question: string, options: seq<string>, correctAnswer: int)

  /** The points a generated question is worth. */
  const QuestionPoints: int := 10

  /** A quiz of the current user for the deck. */
  predicate MineFor(q: Quiz, deckId: string, current: Option<User>) {
    q.deckId == deckId && current.Some? && q.userId == current.value.id
  }

  function ExistingQuiz(quizzes: seq<Quiz>, deckId: string, current: Option<User>): Option<Quiz> {
    Seqs.Find(quizzes, (q: Quiz) => MineFor(q, deckId, current))
  }

  function PublicQuiz(quizzes: seq<Quiz>, deckId: string): Option<Quiz> {
    Seqs.Find(quizzes, (q: Quiz) => q.deckId == deckId && q.userId == "public")
  }

  /** `currentUser?.id || ''`. */
  function OwnerId(current: Option<User>): string {
    if current.Some? then current.value.id else ""
  }

  /** `currentUser?.id` inside a template string. */
  function OwnerText(current: Option<User>): string {
    if current.Some? then current.value.id else "undefined"
  }

  /** The user's copy of the public quiz: a fresh id and owner, started now,
      at the first question, with no answers; everything else is copied. */
  function UserCopy(pub: Quiz, deckId: string, current: Option<User>, now: int): (q: Quiz)
    ensures q.questions == pub.questions && q.deckId == pub.deckId
    ensures q.completedAt == pub.completedAt && q.score == pub.score
    ensures q.userId == OwnerId(current) && q.createdAt == now && q.startedAt == Some(now)
    ensures q.currentQuestionIndex == Some(0) && q.answers == Some([])
  {
    pub.(id := "quiz-" + OwnerText(current) + "-" + deckId + "-" + Text.IntToString(now),
         userId := OwnerId(current), createdAt := now, startedAt := Some(now),
         currentQuestionIndex := Some(0), answers := Some([]))
  }

  /** A quiz built from generated questions: one question per generated one,
      in order, with id `q-<index>` and ten points each. */
  function GeneratedQuiz(deckId: string, generated: seq<GeneratedQuestion>, current: Option<User>, now: int): (q: Quiz)
    ensures |q.questions| == |generated|
    ensures forall i :: 0 <= i < |generated| ==>
      q.questions[i].id == "q-" + Text.NatToString(i) && q.questions[i].points == QuestionPoints
      && q.questions[i].question == generated[i].question && q.questions[i].options == generated[i].options
      && q.questions[i].correctAnswer == generated[i].correctAnswer
    ensures q.deckId == deckId && q.userId == OwnerId(current)
    ensures q.startedAt == Some(now) && q.completedAt == None && q.score == None
    ensures q.currentQuestionIndex == Some(0) && q.answers == Some([])
  {
    var questions := seq(|generated|, i requires 0 <= i < |generated| =>
      Question("q-" + Text.NatToString(i), generated[i].question, generated[i].options,
               generated[i].correctAnswer, QuestionPoints));
    Quiz("quiz-" + Text.IntToString(now), deckId, questions, now, OwnerId(current), Some(now), None,
         Some(0), Some([]), None)
  }

  /** What `loadOrCreateQuiz` settles on: the quiz shown, the index to
      resume at, and whether the quiz is written back. */
  datatype Opening = Opening(quiz: Quiz, resumeAt: Option<int>, save: bool)

  function Open(quizzes: seq<Quiz>, deck: Deck, current: Option<User>, now: int,
                generated: seq<GeneratedQuestion>): (o: Opening)
    ensures ExistingQuiz(quizzes, deck.id, current).Some? ==>
      var e := ExistingQuiz(quizzes, deck.id, current).value;
      o.quiz == (if Truthy(e.startedAt) then e else e.(startedAt := Some(now)))
      && o.resumeAt == e.currentQuestionIndex && (o.save <==> !Truthy(e.startedAt))
    ensures ExistingQuiz(quizzes, deck.id, current).None? ==>
      o.resumeAt == None && o.save
      && o.quiz == if PublicQuiz(quizzes, deck.id).Some?
                   then UserCopy(PublicQuiz(quizzes, deck.id).value, deck.id, current, now)
                   else GeneratedQuiz(deck.id, generated, current, now)
    ensures o.quiz.deckId == deck.id && o.quiz.startedAt.Some?
  {
    var existing := ExistingQuiz(quizzes, deck.id, current);
    if existing.Some? then
      var e := existing.value;
      if Truthy(e.startedAt) then Opening(e, e.currentQuestionIndex, false)
      else Opening(e.(startedAt := Some(now)), e.currentQuestionIndex, true)
    else
      var pub := PublicQuiz(quizzes, deck.id);
      if pub.Some? then Opening(UserCopy(pub.value, deck.id, current, now), None, true)
      else Opening(GeneratedQuiz(deck.id, generated, current, now), None, true)
  }

  /** The store after opening. */
  function Opened(quizzes: seq<Quiz>, o: Opening): seq<Quiz> {
    if o.save then Seqs.Upsert(quizzes, o.quiz, QuizId) else quizzes
  }

  /** After an upsert of `x`, the first element satisfying `p` is `x`, when
      every element satisfying `p` comes at or after one with `x`'s key. */
  lemma FindAfterUpsert<T>(s: seq<T>, x: T, key: T -> string, p: T -> bool)
    requires p(x)
    requires forall j :: 0 <= j < |s| && p(s[j]) ==> exists k :: 0 <= k <= j && key(s[k]) == key(x)
    ensures Seqs.Find(Seqs.Upsert(s, x, key), p) == Some(x)
  {
    var r := Seqs.Upsert(s, x, key);
    var i := Seqs.FindIndex(s, (y: T) => key(y) == key(x));
    var at := if i >= 0 then i else |s|;
    if i >= 0 {
      assert Seqs.FirstWithKey(s, key, key(x), i);
      assert r == s[i := x];
    } else {
      assert r == s + [x];
    }
    assert r[at] == x;
    forall j | 0 <= j < at
      ensures !p(r[j])
    {
      assert r[j] == s[j];
    }
    var found := Seqs.Find(r, p);
    var w :| 0 <= w < |r| && r[w] == found.value && p(r[w]) && forall j :: 0 <= j < w ==> !p(r[j]);
    assert w == at;
  }

  /** A quiz that was opened is the user's quiz for the deck the next time:
      progress is resumed rather than started again. */
  lemma ReopenResumes(quizzes: seq<Quiz>, deck: Deck, current: Option<User>, now: int,
                      generated: seq<GeneratedQuestion>)
    requires current.Some? && current.value.id != ""
    ensures var o := Open(quizzes, deck, current, now, generated);
      ExistingQuiz(Opened(quizzes, o), deck.id, current) == Some(o.quiz)
  {
    var o := Open(quizzes, deck, current, now, generated);
    var p := (q: Quiz) => MineFor(q, deck.id, current);
    var existing := ExistingQuiz(quizzes, deck.id, current);
    if existing.Some? {
      var e := existing.value;
      if o.save {
        var i :| 0 <= i < |quizzes| && quizzes[i] == e && p(quizzes[i]) && forall j :: 0 <= j < i ==> !p(quizzes[j]);
        forall j | 0 <= j < |quizzes| && p(quizzes[j])
          ensures exists k :: 0 <= k <= j && QuizId(quizzes[k]) == QuizId(o.quiz)
        {
          assert QuizId(quizzes[i]) == QuizId(o.quiz);
        }
        FindAfterUpsert(quizzes, o.quiz, QuizId, p);
      }
    } else {
      assert o.quiz.userId == current.value.id;
      FindAfterUpsert(quizzes, o.quiz, QuizId, p);
    }
  }

  /** `answers` after recording one: `quiz.answers || []` plus the new one. */
  function AnswersOf(q: Quiz): seq<Answer> {
    if q.answers.Some? then q.answers.value else []
  }

  function Answered(q: Quiz, a: Answer): (r: Quiz)
    ensures AnswersOf(r) == AnswersOf(q) + [a]
    ensures r.(answers := q.answers) == q
  {
    q.(answers := Some(AnswersOf(q) + [a]))
  }

  /** `Math.round(score / (n * 10) * 100)`: the nearest integer, halves
      rounded up. */
  function Percentage(score: int, questions: nat): (p: int)
    requires questions > 0
    ensures p as real - 0.5 <= (score as real * 10.0) / questions as real < p as real + 0.5
  {
    ((score as real * 10.0) / questions as real + 0.5).Floor
  }

  /** A score between none and all points shows between 0 and 100, and full
      marks show 100. */
  lemma PercentageRange(score: int, questions: nat)
    requires questions > 0 && 0 <= score <= questions * QuestionPoints
    ensures 0 <= Percentage(score, questions) <= 100
    ensures score == questions * QuestionPoints ==> Percentage(score, questions) == 100
  {
    var n := questions as real;
    var x := (score as real * 10.0) / n;
    assert x * n == score as real * 10.0;
    assert x * n <= 100.0 * n;
    BelowByScale(x, 100.0, n);
    assert 0.0 <= x;
    if score == questions * QuestionPoints {
      assert x * n == 100.0 * n;
      BelowByScale(100.0, x, n);
    }
  }

  lemma BelowByScale(x: real, y: real, n: real)
    requires n > 0.0 && x * n <= y * n
    ensures x <= y
  {
    assert (x - y) * n <= 0.0;
  }

  class QuizPage {
    const store: Store
    var deck: Option<Deck>
    var quiz: Option<Quiz>
    var currentIndex: int
    var selectedAnswer: Option<int>
    var showResult: bool
    var score: int
    var isCorrect: bool
    var quizCompleted: bool
    var pointsEarned: int

    /** The session score and the points earned grow together, and a
        result is shown only for a selected answer. */
    predicate Valid()
      reads this
    {
      score == pointsEarned && (showResult ==> selectedAnswer.Some?)
    }

    constructor(store: Store)
      ensures this.store == store && Valid()
      ensures deck == None && quiz == None && currentIndex == 0 && selectedAnswer == None
      ensures !showResult && score == 0 && !isCorrect && !quizCompleted && pointsEarned == 0
    {
      this.store := store;
      deck, quiz, currentIndex, selectedAnswer := None, None, 0, None;
      showResult, score, isCorrect, quizCompleted, pointsEarned := false, 0, false, false, 0;
    }

    /** The page's load effect: an empty or unknown deck id shows nothing;
        otherwise the deck's quiz is opened and, when new or newly started,
        saved. */
    method Load(deckId: string, current: Option<User>, now: int, generated: seq<GeneratedQuestion>)
      modifies this`deck, this`quiz, this`currentIndex, store`quizzes
      ensures var found := Seqs.Find(old(store.decks), (d: Deck) => d.id == deckId);
        if deckId == "" || found.None? then
          deck == old(deck) && quiz == old(quiz) && currentIndex == old(currentIndex)
          && store.quizzes == old(store.quizzes)
        else
          var o := Open(old(store.quizzes), found.value, current, now, generated);
          deck == found && quiz == Some(o.quiz) && store.quizzes == Opened(old(store.quizzes), o)
          && currentIndex == if o.resumeAt.Some? then o.resumeAt.value else old(currentIndex)
    {
      if deckId == "" {
        return;
      }
      var found := Seqs.Find(store.decks, (d: Deck) => d.id == deckId);
      if found.Some? {
        deck := found;
        var o := Open(store.quizzes, found.value, current, now, generated);
        if o.resumeAt.Some? {
          currentIndex := o.resumeAt.value;
        }
        quiz := Some(o.quiz);
        if o.save {
          store.SaveQuiz(o.quiz);
        }
      }
    }

    /** `handleAnswerSelect` on the question shown. Ignored while a result is
        shown; otherwise the answer is recorded, and a correct one adds the
        question's points to the score and to the user. */
    method SelectAnswer(answerIndex: int, current: Option<User>)
      requires Valid() && quiz.Some? && 0 <= currentIndex < |quiz.value.questions|
      modifies this`selectedAnswer, this`isCorrect, this`score, this`pointsEarned, this`quiz, this`showResult
      modifies store`quizzes, store`users, store`leaderboard
      ensures Valid()
      ensures old(showResult) ==>
        selectedAnswer == old(selectedAnswer) && isCorrect == old(isCorrect) && score == old(score)
        && pointsEarned == old(pointsEarned) && quiz == old(quiz) && showResult
        && store.quizzes == old(store.quizzes) && store.users == old(store.users)
        && store.leaderboard == old(store.leaderboard)
      ensures !old(showResult) ==>
        var q := old(quiz).value.questions[old(currentIndex)];
        var updated := Answered(old(quiz).value, Answer(q.id, answerIndex));
        (isCorrect <==> answerIndex == q.correctAnswer)
        && score == old(score) + (if isCorrect then q.points else 0)
        && selectedAnswer == Some(answerIndex) && showResult
        && quiz == Some(updated) && store.quizzes == Seqs.Upsert(old(store.quizzes), updated, QuizId)
        && (!isCorrect || current.None? ==>
              store.users == old(store.users) && store.leaderboard == old(store.leaderboard))
        && pointsEarned == old(pointsEarned) + (if isCorrect then q.points else 0)
        && (isCorrect && current.Some? ==>
              store.users == WithPoints(old(store.users), current.value.id, q.points)
              && ((forall j :: 0 <= j < |old(store.users)| ==> old(store.users)[j].id != current.value.id) ==>
                    store.leaderboard == old(store.leaderboard))
              && ((exists j :: 0 <= j < |old(store.users)| && old(store.users)[j].id == current.value.id) ==>
                    store.leaderboard == Leaderboard(store.users)))
    {
      if showResult {
        return;
      }
      var q := quiz.value.questions[currentIndex];
      selectedAnswer := Some(answerIndex);
      var correct := answerIndex == q.correctAnswer;
      isCorrect := correct;
      if correct {
        Award(q.points, current);
      }
      var updated := Answered(quiz.value, Answer(q.id, answerIndex));
      store.SaveQuiz(updated);
      quiz := Some(updated);
      showResult := true;
    }

    /** A correct answer's points go to the session and to the user. */
    method Award(points: int, current: Option<User>)
      requires Valid()
      modifies this`score, this`pointsEarned, store`users, store`leaderboard
      ensures Valid()
      ensures score == old(score) + points && pointsEarned == old(pointsEarned) + points
      ensures current.None? ==> store.users == old(store.users) && store.leaderboard == old(store.leaderboard)
      ensures current.Some? ==> store.users == WithPoints(old(store.users), current.value.id, points)
      ensures current.Some? && (forall j :: 0 <= j < |old(store.users)| ==> old(store.users)[j].id != current.value.id) ==>
        store.leaderboard == old(store.leaderboard)
      ensures current.Some? && (exists j :: 0 <= j < |old(store.users)| && old(store.users)[j].id == current.value.id) ==>
        store.leaderboard == Leaderboard(store.users)
    {
      if current.Some? {
        store.AddPoints(current.value.id, points);
      }
      score := score + points;
      pointsEarned := pointsEarned + points;
    }

    /** `handleNext`: the next question with the selection cleared, or, after
        the last one, the quiz saved as completed with the session score and
        no saved position. */
    method Next(now: int)
      requires Valid()
      modifies this`currentIndex, this`selectedAnswer, this`showResult, this`isCorrect, this`quiz
      modifies this`quizCompleted, store`quizzes
      ensures Valid()
      ensures old(quiz).None? ==>
        currentIndex == old(currentIndex) && selectedAnswer == old(selectedAnswer) && showResult == old(showResult)
        && isCorrect == old(isCorrect) && quiz == old(quiz) && quizCompleted == old(quizCompleted)
        && store.quizzes == old(store.quizzes)
      ensures old(quiz).Some? && old(currentIndex) + 1 < |old(quiz).value.questions| ==>
        var updated := old(quiz).value.(currentQuestionIndex := Some(old(currentIndex) + 1));
        currentIndex == old(currentIndex) + 1 && selectedAnswer == None && !showResult && !isCorrect
        && quiz == Some(updated) && quizCompleted == old(quizCompleted)
        && store.quizzes == Seqs.Upsert(old(store.quizzes), updated, QuizId)
      ensures old(quiz).Some? && old(currentIndex) + 1 >= |old(quiz).value.questions| ==>
        var finished := old(quiz).value.(completedAt := Some(now), score := Some(score), currentQuestionIndex := None);
        quizCompleted && quiz == old(quiz) && currentIndex == old(currentIndex)
        && selectedAnswer == old(selectedAnswer) && showResult == old(showResult) && isCorrect == old(isCorrect)
        && store.quizzes == Seqs.Upsert(old(store.quizzes), finished, QuizId)
    {
      if quiz.None? {
        return;
      }
      var next := currentIndex + 1;
      if next < |quiz.value.questions| {
        currentIndex := next;
        selectedAnswer := None;
        showResult := false;
        isCorrect := false;
        var updated := quiz.value.(currentQuestionIndex := Some(next));
        store.SaveQuiz(updated);
        quiz := Some(updated);
      } else {
        store.SaveQuiz(quiz.value.(completedAt := Some(now), score := Some(score), currentQuestionIndex := None));
        quizCompleted := true;
      }
    }

    /** "Retake Quiz": the session starts again at the first question. */
    method Retake()
      modifies this`currentIndex, this`selectedAnswer, this`showResult, this`isCorrect, this`score
      modifies this`pointsEarned, this`quizCompleted
      ensures Valid()
      ensures currentIndex == 0 && selectedAnswer == None && !showResult && !isCorrect
      ensures score == 0 && pointsEarned == 0 && !quizCompleted
    {
      currentIndex, selectedAnswer, showResult, isCorrect := 0, None, false, false;
      score, pointsEarned, quizCompleted := 0, 0, false;
    }
  }
}
