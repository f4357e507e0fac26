/**
 * The study page: the deck's cards in a shuffled order, one at a time;
 * rating a card schedules its next review and saves the deck.
 */
module StudyMode {
  import opened Wrappers
  import opened Records
  import Seqs
  import opened Storage

  const Day: int := 24 * 60 * 60 * 1000

  /** `getNextReviewDelay`: spaced-repetition intervals in milliseconds;
      an unknown label gets the medium interval. */
  function ReviewDelay(rating: string): (ms: int)
    ensures rating == "easy" ==> ms == 7 * Day
    ensures rating == "hard" ==> ms == Day
    ensures rating != "easy" && rating != "hard" ==> ms == 3 * Day
    ensures ms > 0
  {
    if rating == "easy" then 7 * Day
    else if rating == "hard" then Day
    else 3 * Day
  }

  function Label(d: Difficulty): string {
    match d
    case Easy => "easy"
    case Medium => "medium"
    case Hard => "hard"
  }

  /** Harder cards come back sooner. */
  lemma HarderSooner()
    ensures ReviewDelay(Label(Hard)) < ReviewDelay(Label(Medium)) < ReviewDelay(Label(Easy))
  {
  }

  /** The rated card: the difficulty chosen, reviewed now, due after the
      delay for that difficulty. */
  function Rated(card: Flashcard, d: Difficulty, now: int): (r: Flashcard)
    ensures r.id == card.id && r.front == card.front && r.back == card.back
    ensures r.difficulty == d && r.lastReviewed == Some(now)
    ensures r.nextReview == Some(now + ReviewDelay(Label(d)))
  {
    card.(difficulty := d, lastReviewed := Some(now), nextReview := Some(now + ReviewDelay(Label(d))))
  }

  /** `cards.map(c => c.id === id ? updated : c)`. */
  function ReplaceCard(cards: seq<Flashcard>, id: string, updated: Flashcard): seq<Flashcard> {
    seq(|cards|, i requires 0 <= i < |cards| => if cards[i].id == id then updated else cards[i])
  }

  /** Replacing works card by card, from the front. */
  lemma ReplaceCardCons(cards: seq<Flashcard>, id: string, updated: Flashcard)
    requires cards != []
    ensures ReplaceCard(cards, id, updated)
         == [if cards[0].id == id then updated else cards[0]] + ReplaceCard(cards[1..], id, updated)
  {
    var r := ReplaceCard(cards, id, updated);
    var s := [if cards[0].id == id then updated else cards[0]] + ReplaceCard(cards[1..], id, updated);
    assert |r| == |s|;
    forall i | 0 <= i < |r| ensures r[i] == s[i] {
      if i > 0 {
        assert s[i] == ReplaceCard(cards[1..], id, updated)[i - 1];
      }
    }
  }

  /** How often a card occurs after the replacement: the replaced cards all
      become `updated`, the others stay. */
  lemma {:induction false} ReplaceCount(a: seq<Flashcard>, id: string, updated: Flashcard, y: Flashcard)
    ensures multiset(ReplaceCard(a, id, updated))[y]
         == (if y == updated then |Seqs.Filter(a, (c: Flashcard) => c.id == id)| else 0)
            + (if y.id != id then multiset(a)[y] else 0)
  {
    if a != [] {
      ReplaceCardCons(a, id, updated);
      ReplaceCount(a[1..], id, updated, y);
      assert a == [a[0]] + a[1..];
      assert multiset(a)[y] == multiset([a[0]])[y] + multiset(a[1..])[y];
    }
  }

  lemma FilterSizeAgrees(a: seq<Flashcard>, b: seq<Flashcard>, p: Flashcard -> bool)
    requires multiset(a) == multiset(b)
    ensures |Seqs.Filter(a, p)| == |Seqs.Filter(b, p)|
  {
    Seqs.FilterMultisetAll(a, p);
    Seqs.FilterMultisetAll(b, p);
    assert multiset(Seqs.Filter(a, p)) == multiset(Seqs.Filter(b, p));
    assert |Seqs.Filter(a, p)| == |multiset(Seqs.Filter(a, p))|;
  }

  /** Replacing by id treats equal cards alike, so two orders of the same
      cards stay two orders of the same cards. */
  lemma ReplaceKeepsPermutation(a: seq<Flashcard>, b: seq<Flashcard>, id: string, updated: Flashcard)
    requires multiset(a) == multiset(b)
    ensures multiset(ReplaceCard(a, id, updated)) == multiset(ReplaceCard(b, id, updated))
  {
    var p := (c: Flashcard) => c.id == id;
    FilterSizeAgrees(a, b, p);
    forall y
      ensures multiset(ReplaceCard(a, id, updated))[y] == multiset(ReplaceCard(b, id, updated))[y]
    {
      ReplaceCount(a, id, updated, y);
      ReplaceCount(b, id, updated, y);
    }
  }

  /** The page's shuffle, `sort(() => Math.random() - 0.5)`, only reorders. */
  ghost predicate IsShuffle(shuffle: seq<Flashcard> -> seq<Flashcard>) {
    forall s :: multiset(shuffle(s)) == multiset(s)
  }

  class StudyPage {
    const store: Store
    var deck: Option<Deck>
    var currentIndex: int
    var showBack: bool
    var shuffledCards: seq<Flashcard>
    /** The session ended after the last card. */
    var finished: bool

    /** The cards studied are always an ordering of the deck's cards. */
    ghost predicate Valid()
      reads this
    {
      deck.Some? ==> multiset(shuffledCards) == multiset(deck.value.cards)
    }

    constructor(store: Store)
      ensures this.store == store && Valid()
      ensures deck == None && currentIndex == 0 && !showBack && shuffledCards == [] && !finished
    {
      this.store := store;
      deck, currentIndex, showBack, shuffledCards, finished := None, 0, false, [], false;
    }

    /** The load effect: an empty or unknown deck id shows nothing; otherwise
        the deck is shown with its cards shuffled. */
    method Load(deckId: string, shuffle: seq<Flashcard> -> seq<Flashcard>)
      requires Valid() && IsShuffle(shuffle)
      modifies this`deck, this`shuffledCards
      ensures Valid()
      ensures var found := Seqs.Find(store.decks, (d: Deck) => d.id == deckId);
        if deckId == "" || found.None? then deck == old(deck) && shuffledCards == old(shuffledCards)
        else deck == found && shuffledCards == shuffle(found.value.cards)
    {
      if deckId == "" {
        return;
      }
      var found := Seqs.Find(store.decks, (d: Deck) => d.id == deckId);
      if found.Some? {
        deck := found;
        shuffledCards := shuffle(found.value.cards);
      }
    }

    method Flip()
      modifies this`showBack
      ensures showBack == !old(showBack)
    {
      showBack := !showBack;
    }

    /** `handleAnswer` on the card shown: the card is rated in the deck and in
        the study order, the deck is saved, and the next card is shown with
        its front up, or the session ends after the last card. */
    method Answer(d: Difficulty, now: int)
      requires Valid() && deck.Some? && 0 <= currentIndex < |shuffledCards|
      modifies this`deck, this`shuffledCards, this`currentIndex, this`showBack, this`finished, store`decks
      ensures Valid()
      ensures var card := old(shuffledCards)[old(currentIndex)];
        var rated := Rated(card, d, now);
        var saved := old(deck).value.(cards := ReplaceCard(old(deck).value.cards, card.id, rated), updatedAt := now);
        deck == Some(saved)
        && shuffledCards == ReplaceCard(old(shuffledCards), card.id, rated)
        && store.decks == Seqs.Upsert(old(store.decks), saved, DeckId)
      ensures old(currentIndex) < |old(shuffledCards)| - 1 ==>
        currentIndex == old(currentIndex) + 1 && !showBack && finished == old(finished)
      ensures old(currentIndex) == |old(shuffledCards)| - 1 ==>
        finished && currentIndex == old(currentIndex) && showBack == old(showBack)
    {
      var card := shuffledCards[currentIndex];
      var rated := Rated(card, d, now);
      var cards := ReplaceCard(deck.value.cards, card.id, rated);
      var order := ReplaceCard(shuffledCards, card.id, rated);
      ReplaceKeepsPermutation(shuffledCards, deck.value.cards, card.id, rated);
      assert multiset(order) == multiset(cards);
      var saved := deck.value.(cards := cards, updatedAt := now);
      var last := currentIndex == |shuffledCards| - 1;
      store.SaveDeck(saved);
      shuffledCards := order;
      deck := Some(saved);
      if !last {
        currentIndex := currentIndex + 1;
        showBack := false;
      } else {
        finished := true;
      }
    }

    /** `restart`: the first card, front up, in a new order. */
    method Restart(shuffle: seq<Flashcard> -> seq<Flashcard>)
      requires Valid() && deck.Some? && IsShuffle(shuffle)
      modifies this`currentIndex, this`showBack, this`shuffledCards
      ensures Valid()
      ensures currentIndex == 0 && !showBack && shuffledCards == shuffle(deck.value.cards)
    {
      currentIndex := 0;
      showBack := false;
      shuffledCards := shuffle(deck.value.cards);
    }
  }
}
