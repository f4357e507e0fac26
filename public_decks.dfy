/**
 * The built-in public library: ten decks for each of twenty subjects and one
 * quiz per deck. The generators are loops that push records into a list;
 * the model keeps those loops and proves them against functions that say
 * what the n-th deck and the k-th quiz are.
 *
 * `Date.now()` is the parameter `now`; the authored wording of the five
 * hand-written subjects is the parameter `authored`; the random option
 * shuffle is the parameter `shuffle`.
 */
module PublicDecks {
  import opened Wrappers
  import opened Records
  import Text
  import Seqs

  const Day: int := 86400000

  const Subjects: seq<string> := [
    "Mathematics", "Physics", "Chemistry", "Biology", "Computer Science",
    "History", "Geography", "Literature", "Philosophy", "Psychology",
    "Economics", "Business", "Art", "Music", "Languages",
    "Medicine", "Engineering", "Law", "Education", "Sociology"]

  /** The id prefixes the five hand-written generators use. */
  const AuthoredBases: seq<string> := ["math", "physics", "chemistry", "biology", "cs"]

  /** The id prefix of every subject, as the generators produce it. */
  const BaseNames: seq<string> := [
    "math", "physics", "chemistry", "biology", "cs",
    "history", "geography", "literature", "philosophy", "psychology",
    "economics", "business", "art", "music", "languages",
    "medicine", "engineering", "law", "education", "sociology"]

  /** The parts of a deck that differ from subject to subject. */
  datatype DeckText = DeckText(name: string, description: string, cards: seq<Flashcard>)

  /** The id prefix of subject `k`: a fixed prefix for the first five, the slug
      of the subject name for the others. */
  function BaseId(k: nat): string
    requires k < |Subjects|
  {
    if k < 5 then AuthoredBases[k] else Text.Slug(Subjects[k])
  }

  function DeckIdOf(base: string, i: nat): string {
    base + "-deck-" + Text.NatToString(i)
  }

  /** `Date.now() - (10 - i) * 86400000`. */
  function Stamp(now: int, i: nat): int {
    now - (10 - i) * Day
  }

  function Card(id: string, front: string, back: string, difficulty: Difficulty): Flashcard {
    Flashcard(id, front, back, difficulty, None, None)
  }

  /** The text of deck `i` of `generateGenericDecks(subject, …)`. */
  function GenericText(subject: string, i: nat): (t: DeckText)
    ensures |t.cards| == 5
  {
    DeckText(
      subject + " Quiz " + Text.NatToString(i),
      "Comprehensive quiz covering key " + Text.Lower(subject) + " concepts - Set " + Text.NatToString(i),
      [ Card("1", "What is a key concept in " + subject + "?", "A fundamental principle in " + subject, Easy),
        Card("2", "Name a notable figure in " + subject, "An influential person in " + subject, Medium),
        Card("3", "What is the main focus of " + subject + "?", "The primary area of study in " + subject, Medium),
        Card("4", "What method is used in " + subject + "?", "Analytical methods specific to " + subject, Hard),
        Card("5", "What theory is important in " + subject + "?", "A foundational theory in " + subject, Medium) ])
  }

  /** The text of deck `i` of subject `k`. */
  function TextOf(authored: (nat, nat) -> DeckText, k: nat, i: nat): DeckText
    requires k < |Subjects|
  {
    if k < 5 then authored(k, i) else GenericText(Subjects[k], i)
  }

  /** Deck `i` (1 to 10) of a subject. */
  function MakeDeck(subject: string, base: string, now: int, i: nat, t: DeckText): Deck {
    Deck(DeckIdOf(base, i), t.name, t.description, t.cards, Stamp(now, i), Stamp(now, i),
         "public", None, None, Some(true), Some(subject))
  }

  /** The `n`-th deck of `generatePublicDecks()`: subjects in order, ten each. */
  function DeckAt(now: int, authored: (nat, nat) -> DeckText, n: nat): Deck
    requires n < 10 * |Subjects|
  {
    var k := n / 10;
    MakeDeck(Subjects[k], BaseId(k), now, n % 10 + 1, TextOf(authored, k, n % 10 + 1))
  }

  function Catalog(now: int, authored: (nat, nat) -> DeckText): (r: seq<Deck>)
    ensures |r| == 200
  {
    seq(200, n requires 0 <= n < 200 => DeckAt(now, authored, n))
  }

  /** One ten-deck generator: `for (let i = 1; i <= 10; i++) decks.push(…)`. */
  method SubjectDecks(subject: string, base: string, now: int, text: nat -> DeckText) returns (decks: seq<Deck>)
    ensures |decks| == 10
    ensures forall j :: 0 <= j < 10 ==> decks[j] == MakeDeck(subject, base, now, j + 1, text(j + 1))
  {
    decks := [];
    for i := 1 to 11
      invariant |decks| == i - 1
      invariant forall j :: 0 <= j < i - 1 ==> decks[j] == MakeDeck(subject, base, now, j + 1, text(j + 1))
    {
      decks := decks + [MakeDeck(subject, base, now, i, text(i))];
    }
  }

  /** Appends the ten decks of subject `k` to a catalog prefix of `10 * k` decks. */
  method PushSubject(all: seq<Deck>, k: nat, now: int, authored: (nat, nat) -> DeckText) returns (r: seq<Deck>)
    requires k < |Subjects|
    requires |all| == 10 * k
    requires forall n :: 0 <= n < |all| ==> all[n] == DeckAt(now, authored, n)
    ensures |r| == 10 * (k + 1)
    ensures forall n :: 0 <= n < |r| ==> r[n] == DeckAt(now, authored, n)
  {
    var decks := SubjectDecks(Subjects[k], BaseId(k), now, (i: nat) => TextOf(authored, k, i));
    r := all + decks;
    forall n | 10 * k <= n < |r|
      ensures r[n] == DeckAt(now, authored, n)
    {
      var j := n - 10 * k;
      assert n / 10 == k && n % 10 == j;
      assert r[n] == decks[j];
    }
  }

  /** `generatePublicDecks()`: the five hand-written subjects, then a generic
      generator for each remaining subject. */
  method GeneratePublicDecks(now: int, authored: (nat, nat) -> DeckText) returns (all: seq<Deck>)
    ensures all == Catalog(now, authored)
  {
    all := [];
    all := PushSubject(all, 0, now, authored);
    all := PushSubject(all, 1, now, authored);
    all := PushSubject(all, 2, now, authored);
    all := PushSubject(all, 3, now, authored);
    all := PushSubject(all, 4, now, authored);
    var k := 5;
    while k < |Subjects|
      invariant 5 <= k <= |Subjects|
      invariant |all| == 10 * k
      invariant forall n :: 0 <= n < |all| ==> all[n] == DeckAt(now, authored, n)
    {
      all := PushSubject(all, k, now, authored);
      k := k + 1;
    }
  }

  // ------------------------------------------------------- deck properties

  /** Each authored deck has five cards, as every hand-written deck does. */
  ghost predicate FiveCards(authored: (nat, nat) -> DeckText) {
    forall k, i :: 0 <= k < 5 && 1 <= i <= 10 ==> |authored(k, i).cards| == 5
  }

  /** Every catalog deck is public, owned by `public`, tagged with its
      subject, dated `(10 - i)` days before `now`, and has five cards. */
  lemma CatalogShape(now: int, authored: (nat, nat) -> DeckText, n: nat)
    requires FiveCards(authored)
    requires n < 200
    ensures Catalog(now, authored)[n].userId == "public"
    ensures Catalog(now, authored)[n].isPublic == Some(true)
    ensures Catalog(now, authored)[n].subject == Some(Subjects[n / 10])
    ensures Catalog(now, authored)[n].createdAt == Catalog(now, authored)[n].updatedAt == now - (9 - n % 10) * Day
    ensures |Catalog(now, authored)[n].cards| == 5
  {
    var k := n / 10;
    if k < 5 {
      assert |authored(k, n % 10 + 1).cards| == 5;
    }
  }

  /** The generic prefix is the slug of the subject name. */
  lemma {:induction false} SlugOfWord(s: string, e: string)
    requires |s| == |e|
    requires forall i :: 0 <= i < |s| ==> !Text.IsWhitespace(s[i]) && e[i] == Text.LowerChar(s[i])
    ensures Text.Slug(s) == e
  {
  }

  lemma BaseIdHistory()
    ensures BaseId(5) == BaseNames[5]
  {
    SlugOfWord(Subjects[5], BaseNames[5]);
  }

  lemma BaseIdGeography()
    ensures BaseId(6) == BaseNames[6]
  {
    SlugOfWord(Subjects[6], BaseNames[6]);
  }

  lemma BaseIdLiterature()
    ensures BaseId(7) == BaseNames[7]
  {
    SlugOfWord(Subjects[7], BaseNames[7]);
  }

  lemma BaseIdPhilosophy()
    ensures BaseId(8) == BaseNames[8]
  {
    SlugOfWord(Subjects[8], BaseNames[8]);
  }

  lemma BaseIdPsychology()
    ensures BaseId(9) == BaseNames[9]
  {
    SlugOfWord(Subjects[9], BaseNames[9]);
  }

  lemma BaseIdEconomics()
    ensures BaseId(10) == BaseNames[10]
  {
    SlugOfWord(Subjects[10], BaseNames[10]);
  }

  lemma BaseIdBusiness()
    ensures BaseId(11) == BaseNames[11]
  {
    SlugOfWord(Subjects[11], BaseNames[11]);
  }

  lemma BaseIdArt()
    ensures BaseId(12) == BaseNames[12]
  {
    SlugOfWord(Subjects[12], BaseNames[12]);
  }

  lemma BaseIdMusic()
    ensures BaseId(13) == BaseNames[13]
  {
    SlugOfWord(Subjects[13], BaseNames[13]);
  }

  lemma BaseIdLanguages()
    ensures BaseId(14) == BaseNames[14]
  {
    SlugOfWord(Subjects[14], BaseNames[14]);
  }

  lemma BaseIdMedicine()
    ensures BaseId(15) == BaseNames[15]
  {
    SlugOfWord(Subjects[15], BaseNames[15]);
  }

  lemma BaseIdEngineering()
    ensures BaseId(16) == BaseNames[16]
  {
    SlugOfWord(Subjects[16], BaseNames[16]);
  }

  lemma BaseIdLaw()
    ensures BaseId(17) == BaseNames[17]
  {
    SlugOfWord(Subjects[17], BaseNames[17]);
  }

  lemma BaseIdEducation()
    ensures BaseId(18) == BaseNames[18]
  {
    SlugOfWord(Subjects[18], BaseNames[18]);
  }

  lemma BaseIdSociology()
    ensures BaseId(19) == BaseNames[19]
  {
    SlugOfWord(Subjects[19], BaseNames[19]);
  }

  /** The prefix of subject `k` is `BaseNames[k]`. */
  lemma BaseIdAt(k: nat)
    requires k < 20
    ensures BaseId(k) == BaseNames[k]
  {
    if k < 5 {
    } else if k == 5 {
      BaseIdHistory();
    } else if k == 6 {
      BaseIdGeography();
    } else if k == 7 {
      BaseIdLiterature();
    } else if k == 8 {
      BaseIdPhilosophy();
    } else if k == 9 {
      BaseIdPsychology();
    } else if k == 10 {
      BaseIdEconomics();
    } else if k == 11 {
      BaseIdBusiness();
    } else if k == 12 {
      BaseIdArt();
    } else if k == 13 {
      BaseIdMusic();
    } else if k == 14 {
      BaseIdLanguages();
    } else if k == 15 {
      BaseIdMedicine();
    } else if k == 16 {
      BaseIdEngineering();
    } else if k == 17 {
      BaseIdLaw();
    } else if k == 18 {
      BaseIdEducation();
    } else if k == 19 {
      BaseIdSociology();
    }
  }

  /** The twenty prefixes are distinct. */
  lemma BaseNamesDistinct()
    ensures forall a, b :: 0 <= a < b < 20 ==> BaseNames[a] != BaseNames[b]
  {
  }

  /** No prefix contains a dash. */
  lemma BaseNamesDashFree()
    ensures forall a, i :: 0 <= a < 20 && 0 <= i < |BaseNames[a]| ==> BaseNames[a][i] != '-'
  {
  }

  /** `${base}-deck-${i}` determines both the prefix and the number when the
      prefix contains no dash. */
  lemma DeckIdInjective(b1: string, n1: nat, b2: string, n2: nat)
    requires forall i :: 0 <= i < |b1| ==> b1[i] != '-'
    requires forall i :: 0 <= i < |b2| ==> b2[i] != '-'
    requires DeckIdOf(b1, n1) == DeckIdOf(b2, n2)
    ensures b1 == b2 && n1 == n2
  {
    var s := DeckIdOf(b1, n1);
    assert s == DeckIdOf(b2, n2);
    assert s[|b1|] == '-' && s[|b2|] == '-';
    assert |b1| == |b2|;
    assert b1 == s[..|b1|] == b2;
    assert Text.NatToString(n1) == s[|b1| + 6..] == Text.NatToString(n2);
    Text.NatToStringInjective(n1, n2);
  }

  /** Two positions of the catalog hold decks with different ids. */
  lemma CatalogIdsDiffer(now: int, authored: (nat, nat) -> DeckText, a: nat, b: nat)
    requires a < b < 200
    requires forall x, y :: 0 <= x < y < 20 ==> BaseNames[x] != BaseNames[y]
    requires forall x, i :: 0 <= x < 20 && 0 <= i < |BaseNames[x]| ==> BaseNames[x][i] != '-'
    ensures Catalog(now, authored)[a].id != Catalog(now, authored)[b].id
  {
    var c := Catalog(now, authored);
    assert c[a].id == DeckIdOf(BaseId(a / 10), a % 10 + 1);
    assert c[b].id == DeckIdOf(BaseId(b / 10), b % 10 + 1);
    BaseIdAt(a / 10);
    BaseIdAt(b / 10);
    if c[a].id == c[b].id {
      DeckIdInjective(BaseId(a / 10), a % 10 + 1, BaseId(b / 10), b % 10 + 1);
    }
  }

  /** All 200 catalog ids are distinct. */
  lemma CatalogIdsDistinct(now: int, authored: (nat, nat) -> DeckText)
    ensures forall a, b :: 0 <= a < b < 200 ==> Catalog(now, authored)[a].id != Catalog(now, authored)[b].id
  {
    BaseNamesDistinct();
    BaseNamesDashFree();
    forall a, b | 0 <= a < b < 200
      ensures Catalog(now, authored)[a].id != Catalog(now, authored)[b].id
    {
      CatalogIdsDiffer(now, authored, a, b);
    }
  }

  // ---------------------------------------------------------------- quizzes

  /** The four answer options before shuffling: the right answer first. */
  function BaseOptions(card: Flashcard, idx: nat): (r: seq<string>)
    ensures |r| == 4 && r[0] == card.back
  {
    var n := Text.NatToString(idx + 1);
    [card.back, "Alternative answer " + n, "Incorrect option " + n, "Wrong answer " + n]
  }

  /** Question `idx` of the quiz of deck `deckId`; `correctAnswer` is
      `options.indexOf(card.back)`. */
  function MakeQuestion(deckId: string, card: Flashcard, idx: nat, options: seq<string>): Question {
    Question("q-" + deckId + "-" + Text.NatToString(idx), card.front, options,
             Seqs.FindIndex(options, (o: string) => o == card.back), 10)
  }

  /** `deck.cards.slice(0, 5)`. */
  function FirstCards(cards: seq<Flashcard>): (r: seq<Flashcard>)
    ensures |r| == if |cards| < 5 then |cards| else 5
    ensures r <= cards
  {
    if |cards| <= 5 then cards else cards[..5]
  }

  function Questions(deck: Deck, shuffle: (string, nat, seq<string>) -> seq<string>): seq<Question> {
    var cards := FirstCards(deck.cards);
    seq(|cards|, j requires 0 <= j < |cards| =>
      MakeQuestion(deck.id, cards[j], j, shuffle(deck.id, j, BaseOptions(cards[j], j))))
  }

  /** The quiz `generatePublicQuizzes` builds for one deck. */
  function QuizFor(deck: Deck, shuffle: (string, nat, seq<string>) -> seq<string>): Quiz {
    Quiz("quiz-" + deck.id, deck.id, Questions(deck, shuffle), deck.createdAt, "public",
         None, None, None, None, None)
  }

  function QuizzesFor(decks: seq<Deck>, shuffle: (string, nat, seq<string>) -> seq<string>): (r: seq<Quiz>)
    ensures |r| == |decks|
  {
    seq(|decks|, k requires 0 <= k < |decks| => QuizFor(decks[k], shuffle))
  }

  /** `generatePublicQuizzes(decks)`: `decks.forEach(deck => quizzes.push(…))`. */
  method GeneratePublicQuizzes(decks: seq<Deck>, shuffle: (string, nat, seq<string>) -> seq<string>)
    returns (quizzes: seq<Quiz>)
    ensures quizzes == QuizzesFor(decks, shuffle)
  {
    quizzes := [];
    for k := 0 to |decks|
      invariant quizzes == QuizzesFor(decks[..k], shuffle)
    {
      assert decks[..k + 1] == decks[..k] + [decks[k]];
      quizzes := quizzes + [QuizFor(decks[k], shuffle)];
    }
    assert decks[..|decks|] == decks;
  }

  /** Sorting with a random comparator reorders but never adds or drops. */
  ghost predicate Permutes(shuffle: (string, nat, seq<string>) -> seq<string>) {
    forall d, i, s :: multiset(shuffle(d, i, s)) == multiset(s)
  }

  /** Every question: at most five per quiz, built from card `j` with id
      `q-<deck>-<j>` and 10 points, its four options a permutation of the
      right answer and the three distractors, and `correctAnswer` indexing
      the right answer. */
  lemma QuestionFacts(deck: Deck, shuffle: (string, nat, seq<string>) -> seq<string>, j: nat)
    requires Permutes(shuffle)
    requires j < |Questions(deck, shuffle)|
    ensures |Questions(deck, shuffle)| <= 5 && j < |deck.cards|
    ensures Questions(deck, shuffle)[j].id == "q-" + deck.id + "-" + Text.NatToString(j)
    ensures Questions(deck, shuffle)[j].question == deck.cards[j].front
    ensures Questions(deck, shuffle)[j].points == 10
    ensures multiset(Questions(deck, shuffle)[j].options) == multiset(BaseOptions(deck.cards[j], j))
    ensures |Questions(deck, shuffle)[j].options| == 4
    ensures 0 <= Questions(deck, shuffle)[j].correctAnswer < 4
    ensures Questions(deck, shuffle)[j].options[Questions(deck, shuffle)[j].correctAnswer] == deck.cards[j].back
  {
    var card := deck.cards[j];
    var base := BaseOptions(card, j);
    var options := shuffle(deck.id, j, base);
    assert multiset(options) == multiset(base);
    assert |options| == |multiset(options)| == |multiset(base)| == 4;
    assert card.back in multiset(options);
    var m :| 0 <= m < |options| && options[m] == card.back;
    var c := Seqs.FindIndex(options, (o: string) => o == card.back);
    assert c != -1;
  }

  /** One quiz per deck, in deck order, tied to its deck. */
  lemma QuizzesMatchDecks(decks: seq<Deck>, shuffle: (string, nat, seq<string>) -> seq<string>, k: nat)
    requires k < |decks|
    ensures QuizzesFor(decks, shuffle)[k].id == "quiz-" + decks[k].id
    ensures QuizzesFor(decks, shuffle)[k].deckId == decks[k].id
    ensures QuizzesFor(decks, shuffle)[k].userId == "public"
    ensures QuizzesFor(decks, shuffle)[k].createdAt == decks[k].createdAt
  {
  }

  /** Distinct deck ids give distinct quiz ids. */
  lemma QuizIdsDistinct(decks: seq<Deck>, shuffle: (string, nat, seq<string>) -> seq<string>)
    requires forall a, b :: 0 <= a < b < |decks| ==> decks[a].id != decks[b].id
    ensures forall a, b :: 0 <= a < b < |decks| ==>
      QuizzesFor(decks, shuffle)[a].id != QuizzesFor(decks, shuffle)[b].id
  {
    var qs := QuizzesFor(decks, shuffle);
    forall a, b | 0 <= a < b < |decks|
      ensures qs[a].id != qs[b].id
    {
      assert qs[a].id[5..] == decks[a].id;
      assert qs[b].id[5..] == decks[b].id;
    }
  }
}
