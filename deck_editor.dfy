/**
 * The deck editor: the cards of one deck are edited in memory (added,
 * deleted, their two sides rewritten) and stored with the deck on save.
 */
module DeckEditor {
  import opened Wrappers
  import opened Records
  import Seqs
  import Text
  import opened Storage

  /** A side counts as filled when `side.trim()` is not empty. */
  predicate Filled(side: string) {
    !Text.IsBlank(side)
  }

  predicate AllFilled(cards: seq<Flashcard>) {
    forall i :: 0 <= i < |cards| ==> Filled(cards[i].front) && Filled(cards[i].back)
  }

  /** The card `addCard` appends: id `Date.now().toString()`, the typed
      sides, medium difficulty and no review yet. */
  function NewCard(front: string, back: string, now: nat): (c: Flashcard)
    ensures c.id == Text.NatToString(now) && c.front == front && c.back == back
    ensures c.difficulty == Medium && c.lastReviewed.None? && c.nextReview.None?
  {
    Flashcard(Text.NatToString(now), front, back, Medium, None, None)
  }

  /** `cards.map(c => c.id === id ? { ...c, front, back } : c)`. */
  function EditedCards(cards: seq<Flashcard>, id: string, front: string, back: string): (r: seq<Flashcard>)
    ensures |r| == |cards|
    ensures forall i :: 0 <= i < |cards| ==>
      r[i].id == cards[i].id && r[i].difficulty == cards[i].difficulty
      && r[i].lastReviewed == cards[i].lastReviewed && r[i].nextReview == cards[i].nextReview
    ensures forall i :: 0 <= i < |cards| && cards[i].id == id ==> r[i].front == front && r[i].back == back
    ensures forall i :: 0 <= i < |cards| && cards[i].id != id ==> r[i] == cards[i]
  {
    seq(|cards|, i requires 0 <= i < |cards| =>
      if cards[i].id == id then cards[i].(front := front, back := back) else cards[i])
  }

  /** Deleting a card that was just added, under an id no other card uses,
      gives back the cards as they were. */
  lemma DeleteUndoesAdd(cards: seq<Flashcard>, front: string, back: string, now: nat)
    requires forall j :: 0 <= j < |cards| ==> cards[j].id != Text.NatToString(now)
    ensures Seqs.RemoveKey(cards + [NewCard(front, back, now)], CardId, Text.NatToString(now)) == cards
  {
    var ids := {Text.NatToString(now)};
    Seqs.WithoutIdsAppend(cards, [NewCard(front, back, now)], CardId, ids);
    Seqs.WithoutAbsentIds(cards, CardId, ids);
  }

  /** Editing twice with the same text is editing once. */
  lemma EditIdempotent(cards: seq<Flashcard>, id: string, front: string, back: string)
    ensures EditedCards(EditedCards(cards, id, front, back), id, front, back) == EditedCards(cards, id, front, back)
  {
  }

  /** Neither adding nor editing can leave a blank side: when every card was
      filled before, every card is filled after. */
  lemma EditingKeepsFilled(cards: seq<Flashcard>, id: string, front: string, back: string, now: nat)
    requires AllFilled(cards) && Filled(front) && Filled(back)
    ensures AllFilled(EditedCards(cards, id, front, back))
    ensures AllFilled(cards + [NewCard(front, back, now)])
  {
    var added := cards + [NewCard(front, back, now)];
    forall i | 0 <= i < |added|
      ensures Filled(added[i].front) && Filled(added[i].back)
    {
      if i < |cards| {
        assert added[i] == cards[i];
      }
    }
  }

  class Editor {
    const store: Store
    var deck: Option<Deck>
    var cards: seq<Flashcard>
    var showAddModal: bool
    var newCardFront: string
    var newCardBack: string
    /** The card being edited; `None` for `null`. */
    var editingCardId: Option<string>
    var editFront: string
    var editBack: string

    constructor(store: Store)
      ensures this.store == store && deck.None? && cards == [] && !showAddModal
      ensures newCardFront == "" && newCardBack == "" && editingCardId.None? && editFront == "" && editBack == ""
    {
      this.store := store;
      deck, cards, showAddModal := None, [], false;
      newCardFront, newCardBack := "", "";
      editingCardId, editFront, editBack := None, "", "";
    }

    /** The load effect: an empty or unknown deck id loads nothing; otherwise
        the deck and its cards are shown. */
    method Load(deckId: string)
      modifies this`deck, this`cards
      ensures var found := Seqs.Find(store.decks, (d: Deck) => d.id == deckId);
        if deckId == "" || found.None? then deck == old(deck) && cards == old(cards)
        else deck == found && cards == found.value.cards
    {
      if deckId == "" {
        return;
      }
      var found := Seqs.Find(store.decks, (d: Deck) => d.id == deckId);
      if found.Some? {
        deck := found;
        cards := found.value.cards;
      }
    }

    /** The add dialog's fields, as typed. */
    method TypeNewCard(front: string, back: string)
      modifies this`newCardFront, this`newCardBack, this`showAddModal
      ensures newCardFront == front && newCardBack == back && showAddModal
    {
      newCardFront, newCardBack, showAddModal := front, back, true;
    }

    /** `addCard`: with a blank side nothing happens; otherwise exactly one
        new card is appended and the dialog is cleared and closed. */
    method AddCard(now: nat)
      modifies this`cards, this`newCardFront, this`newCardBack, this`showAddModal
      ensures !Filled(old(newCardFront)) || !Filled(old(newCardBack)) ==>
        cards == old(cards) && newCardFront == old(newCardFront) && newCardBack == old(newCardBack)
        && showAddModal == old(showAddModal)
      ensures Filled(old(newCardFront)) && Filled(old(newCardBack)) ==>
        cards == old(cards) + [NewCard(old(newCardFront), old(newCardBack), now)]
        && newCardFront == "" && newCardBack == "" && !showAddModal
      ensures AllFilled(old(cards)) ==> AllFilled(cards)
    {
      if !Filled(newCardFront) || !Filled(newCardBack) {
        return;
      }
      if AllFilled(cards) {
        EditingKeepsFilled(cards, "", newCardFront, newCardBack, now);
      }
      cards := cards + [NewCard(newCardFront, newCardBack, now)];
      newCardFront, newCardBack, showAddModal := "", "", false;
    }

    /** `deleteCard` after the confirmation: every card with the id goes,
        the others stay in order. */
    method DeleteCard(cardId: string)
      modifies this`cards
      ensures cards == Seqs.RemoveKey(old(cards), CardId, cardId)
      ensures forall c :: c in cards <==> c in old(cards) && c.id != cardId
      ensures AllFilled(old(cards)) ==> AllFilled(cards)
    {
      var kept := Seqs.RemoveKey(cards, CardId, cardId);
      forall c | c in cards && c.id != cardId
        ensures c in kept
      {
        var j :| 0 <= j < |cards| && cards[j] == c;
      }
      cards := kept;
    }

    /** `startEdit`: the card's id and sides go into the edit fields. */
    method StartEdit(card: Flashcard)
      modifies this`editingCardId, this`editFront, this`editBack
      ensures editingCardId == Some(card.id) && editFront == card.front && editBack == card.back
    {
      editingCardId, editFront, editBack := Some(card.id), card.front, card.back;
    }

    /** The edit fields, as typed. */
    method TypeEdit(front: string, back: string)
      modifies this`editFront, this`editBack
      ensures editFront == front && editBack == back
    {
      editFront, editBack := front, back;
    }

    /** `saveEdit`: without a (truthy) card being edited, or with a blank
        side, nothing happens; otherwise the sides of the cards with that id
        are replaced and the edit state is cleared. */
    method SaveEdit()
      modifies this`cards, this`editingCardId, this`editFront, this`editBack
      ensures var none := old(editingCardId).None? || old(editingCardId).value == "";
        none || !Filled(old(editFront)) || !Filled(old(editBack)) ==>
          cards == old(cards) && editingCardId == old(editingCardId)
          && editFront == old(editFront) && editBack == old(editBack)
      ensures (old(editingCardId).Some? && old(editingCardId).value != ""
        && Filled(old(editFront)) && Filled(old(editBack))) ==>
          cards == EditedCards(old(cards), old(editingCardId).value, old(editFront), old(editBack))
          && editingCardId.None? && editFront == "" && editBack == ""
      ensures AllFilled(old(cards)) ==> AllFilled(cards)
    {
      if editingCardId.None? || editingCardId.value == "" || !Filled(editFront) || !Filled(editBack) {
        return;
      }
      if AllFilled(cards) {
        EditingKeepsFilled(cards, editingCardId.value, editFront, editBack, 0);
      }
      cards := EditedCards(cards, editingCardId.value, editFront, editBack);
      editingCardId, editFront, editBack := None, "", "";
    }

    /** `cancelEdit`: the edit state is cleared, the cards stay. */
    method CancelEdit()
      modifies this`editingCardId, this`editFront, this`editBack
      ensures editingCardId.None? && editFront == "" && editBack == ""
    {
      editingCardId, editFront, editBack := None, "", "";
    }

    /** `saveDeck`: without a loaded deck nothing is stored; otherwise the
        deck is stored with the edited cards and a new `updatedAt`, every
        other field as loaded. */
    method SaveDeck(now: int)
      modifies store`decks
      ensures deck.None? ==> store.decks == old(store.decks)
      ensures deck.Some? ==>
        store.decks == Seqs.Upsert(old(store.decks), deck.value.(cards := cards, updatedAt := now), DeckId)
    {
      if deck.None? {
        return;
      }
      store.SaveDeck(deck.value.(cards := cards, updatedAt := now));
    }
  }
}
