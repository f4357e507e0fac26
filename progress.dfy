/**
 * The progress page: the signed-in user's quizzes that were started and not
 * finished, each with its completion percentage, most recently started
 * first.
 */
module Progress {
  import opened Wrappers
  import opened Records
  import Seqs
  import Sorting
  import Text

  const Minute: int := 60000
  const Hour: int := 3600000
  const Day: int := 86400000

  /** One row of the page. */
  datatype InProgressQuiz = InProgressQuiz(
    quiz: Quiz,
    deck: Option<Deck>,
    progress: int,
    currentQuestion: int,
    totalQuestions: nat)

  /** `Math.round(x)`: the nearest integer, a half rounding up. */
  function Round(x: real): (n: int)
    ensures x - 0.5 < n as real <= x + 0.5
  {
    (x + 0.5).Floor
  }

  /** `q.userId === id && q.startedAt && !q.completedAt`. */
  predicate InProgress(q: Quiz, userId: string) {
    q.userId == userId && Truthy(q.startedAt) && !Truthy(q.completedAt)
  }

  /** The question the quiz stopped at; an absent index counts as 0. */
  function CurrentIndex(q: Quiz): int {
    match q.currentQuestionIndex
    case Some(i) => i
    case None => 0
  }

  /** The completion percentage: the share of questions already passed,
      rounded to the nearest integer, and 0 for a quiz without questions. */
  function Percent(current: int, total: nat): (p: int)
    ensures total == 0 ==> p == 0
    ensures total > 0 ==>
      p as real - 0.5 <= current as real * 100.0 / total as real < p as real + 0.5
  {
    // `(currentQ / totalQ) * 100`, which over the reals is `currentQ * 100 / totalQ`
    if total > 0 then Round(current as real * 100.0 / total as real) else 0
  }

  /** A quiz stopped within its questions shows between 0 and 100 percent;
      at the start it shows 0 and past the last question 100; a quiz
      without questions shows 0. */
  lemma PercentRange(current: int, total: nat)
    requires 0 <= current <= total
    ensures 0 <= Percent(current, total) <= 100
    ensures current == 0 ==> Percent(current, total) == 0
    ensures 0 < current == total ==> Percent(current, total) == 100
  {
    if total > 0 {
      ShareOfHundred(current as real * 100.0, total as real);
      if current == total {
        assert Round(100.0) == 100;
      }
    }
  }

  /** `a / n` for `0 <= a <= 100 n` lies between 0 and 100, and is 100 at
      the bound. */
  lemma ShareOfHundred(a: real, n: real)
    requires n > 0.0 && 0.0 <= a <= 100.0 * n
    ensures 0.0 <= a / n <= 100.0
    ensures a == 100.0 * n ==> a / n == 100.0
  {
    var y := a / n;
    assert y * n == a;
  }

  /** The row for one quiz: its deck (the first with the quiz's deck id,
      among all decks), its percentage, the 1-based question number and the
      question count. */
  function Row(q: Quiz, decks: seq<Deck>): (e: InProgressQuiz)
    ensures e.quiz == q && e.totalQuestions == |q.questions|
    ensures e.currentQuestion == CurrentIndex(q) + 1
    ensures e.progress == Percent(CurrentIndex(q), |q.questions|)
    ensures e.deck.Some? ==> e.deck.value in decks && e.deck.value.id == q.deckId
    ensures e.deck.None? <==> forall j :: 0 <= j < |decks| ==> decks[j].id != q.deckId
  {
    var deck := Seqs.Find(decks, (d: Deck) => d.id == q.deckId);
    var current := CurrentIndex(q);
    var total := |q.questions|;
    InProgressQuiz(q, deck, Percent(current, total), current + 1, total)
  }

  function Rows(qs: seq<Quiz>, decks: seq<Deck>): seq<InProgressQuiz> {
    seq(|qs|, i requires 0 <= i < |qs| => Row(qs[i], decks))
  }

  /** The sort key `startedAt || 0`. */
  function StartKey(e: InProgressQuiz): int {
    if Truthy(e.quiz.startedAt) then e.quiz.startedAt.value else 0
  }

  /** `loadProgress`: nothing without a signed-in user; otherwise the rows of
      the user's unfinished quizzes, sorted by start time, newest first. */
  function LoadProgress(user: Option<User>, quizzes: seq<Quiz>, decks: seq<Deck>): Option<seq<InProgressQuiz>> {
    match user
    case None => None
    case Some(u) =>
      Some(Sorting.SortDesc(Rows(Mine(quizzes, u.id), decks), StartKey))
  }

  /** The user's started and unfinished quizzes, in stored order. */
  function Mine(quizzes: seq<Quiz>, userId: string): (r: seq<Quiz>)
    ensures forall q :: q in r <==> q in quizzes && InProgress(q, userId)
  {
    Seqs.Filter(quizzes, (q: Quiz) => InProgress(q, userId))
  }

  /** The listing exists exactly when a user is signed in, and is then the
      rows of that user's unfinished quizzes, newest start first, where
      quizzes started at the same time keep their stored order. */
  lemma LoadProgressSorted(user: Option<User>, quizzes: seq<Quiz>, decks: seq<Deck>)
    ensures LoadProgress(user, quizzes, decks).None? <==> user.None?
    ensures user.Some? ==>
      var rows := LoadProgress(user, quizzes, decks).value;
      var all := Rows(Mine(quizzes, user.value.id), decks);
      && Sorting.SortedDesc(rows, StartKey)
      && multiset(rows) == multiset(all)
      && (forall k :: Sorting.WithKey(rows, StartKey, k) == Sorting.WithKey(all, StartKey, k))
  {
    if user.Some? {
      var all := Rows(Mine(quizzes, user.value.id), decks);
      forall k {
        Sorting.SortDescStable(all, StartKey, k);
      }
    }
  }

  /** Every row belongs to a started and unfinished quiz of the user. */
  lemma LoadProgressOnlyUnfinished(user: User, quizzes: seq<Quiz>, decks: seq<Deck>, e: InProgressQuiz)
    requires e in LoadProgress(Some(user), quizzes, decks).value
    ensures e.quiz in quizzes && InProgress(e.quiz, user.id) && e == Row(e.quiz, decks)
  {
    var mine := Mine(quizzes, user.id);
    var all := Rows(mine, decks);
    assert e in multiset(all);
    var i :| 0 <= i < |all| && all[i] == e;
    assert mine[i] in mine;
  }

  /** Every started and unfinished quiz of the user has its row. */
  lemma LoadProgressComplete(user: User, quizzes: seq<Quiz>, decks: seq<Deck>, q: Quiz)
    requires q in quizzes && InProgress(q, user.id)
    ensures Row(q, decks) in LoadProgress(Some(user), quizzes, decks).value
  {
    var mine := Mine(quizzes, user.id);
    var all := Rows(mine, decks);
    var i :| 0 <= i < |mine| && mine[i] == q;
    assert all[i] == Row(q, decks);
    assert Row(q, decks) in multiset(Sorting.SortDesc(all, StartKey));
  }

  /** Only quizzes that are started and not finished are listed, so the key
      is the start time itself. */
  lemma StartKeyIsStart(user: User, quizzes: seq<Quiz>, decks: seq<Deck>, e: InProgressQuiz)
    requires e in LoadProgress(Some(user), quizzes, decks).value
    ensures e.quiz.startedAt.Some? && StartKey(e) == e.quiz.startedAt.value != 0
  {
    LoadProgressOnlyUnfinished(user, quizzes, decks, e);
  }

  // ------------------------------------------------------------- display

  const Green: string := "#16a34a"
  const Yellow: string := "#fbbf24"
  const Orange: string := "#ea580c"
  const Red: string := "#dc2626"

  /** `getProgressColor`: green from 80, yellow from 50, orange from 25,
      red below. */
  function ProgressColor(percentage: int): (c: string)
    ensures c == Green <==> percentage >= 80
    ensures c == Yellow <==> 50 <= percentage < 80
    ensures c == Orange <==> 25 <= percentage < 50
    ensures c == Red <==> percentage < 25
  {
    if percentage >= 80 then Green
    else if percentage >= 50 then Yellow
    else if percentage >= 25 then Orange
    else Red
  }

  /** The colour's place on the scale from red (0) to green (3). */
  function Level(c: string): nat {
    if c == Green then 3 else if c == Yellow then 2 else if c == Orange then 1 else 0
  }

  /** More progress never shows a colour further down the scale. */
  lemma ColorMonotone(p: int, q: int)
    requires p <= q
    ensures Level(ProgressColor(p)) <= Level(ProgressColor(q))
  {
  }

  /** `${n} ${unit}${n > 1 ? 's' : ''} ago`. */
  function Ago(n: nat, unit: string): string {
    Text.NatToString(n) + " " + unit + (if n > 1 then "s" else "") + " ago"
  }

  /** The unit takes the plural 's' exactly when the count is above one. */
  lemma AgoPlural(n: nat, unit: string)
    requires unit != [] && unit[|unit| - 1] != 's'
    ensures var t := Ago(n, unit);
      n > 1 <==> |t| >= 5 && t[|t| - 5..] == "s ago"
  {
    var t := Ago(n, unit);
    var head := Text.NatToString(n) + " " + unit;
    if n > 1 {
      assert t == head + "s ago";
    } else {
      assert t == head + " ago";
      assert t[|t| - 5] == unit[|unit| - 1];
    }
  }

  /** `formatDate` of the progress page: under a minute "Just now", then the
      elapsed minutes, hours or days (each rounded down), and from a week on
      the locale date. */
  function FormatDate(timestamp: int, now: int): (r: Text.DateText)
    ensures var diff := now - timestamp;
      && (r == Text.Relative("Just now") <==> diff < Minute)
      && (Minute <= diff < Hour ==> r == Text.Relative(Ago(diff / Minute, "minute")))
      && (Hour <= diff < Day ==> r == Text.Relative(Ago(diff / Hour, "hour")))
      && (Day <= diff < 7 * Day ==> r == Text.Relative(Ago(diff / Day, "day")))
      && (r.LocaleDate? <==> diff >= 7 * Day)
      && (r.LocaleDate? ==> r.timestamp == timestamp)
  {
    var diff := now - timestamp;
    var mins, hours, days := diff / Minute, diff / Hour, diff / Day;
    if mins < 1 then Text.Relative("Just now")
    else if mins < 60 then Text.Relative(Ago(mins, "minute"))
    else if hours < 24 then Text.Relative(Ago(hours, "hour"))
    else if days < 7 then Text.Relative(Ago(days, "day"))
    else Text.LocaleDate(timestamp)
  }
}
