/**
 * The flashcards page: the distinct topic list, the search and topic filter, the create and
 * update validation, and the study-mode navigation over the filtered cards. The card list
 * comes from the server and is a parameter of the reload.
 */
module FlashcardsPage {
  import opened Wrappers
  import opened Text
  import Seqs

  datatype Card = Card(id: int, question: string, answer: string, topic: string)

  /** The topic of every card, in card order. */
  function CardTopics(cards: seq<Card>): seq<string> {
    seq(|cards|, i requires 0 <= i < |cards| => cards[i].topic)
  }

  /** `[...new Set(cards.map(card => card.topic))]`. */
  function DistinctTopics(cards: seq<Card>): seq<string> {
    Seqs.Distinct(CardTopics(cards))
  }

  /** Each topic is listed once, exactly the topics some card has are listed, and they come
      in the order of their first card. */
  lemma DistinctTopicsExact(cards: seq<Card>, t: string)
    ensures Seqs.NoDuplicates(DistinctTopics(cards))
    ensures t in DistinctTopics(cards) <==> exists i :: 0 <= i < |cards| && cards[i].topic == t
    ensures forall i, j :: 0 <= i < j < |DistinctTopics(cards)| ==>
              Seqs.FirstIndex(CardTopics(cards), DistinctTopics(cards)[i])
              < Seqs.FirstIndex(CardTopics(cards), DistinctTopics(cards)[j])
  {
    var ts := CardTopics(cards);
    if t in DistinctTopics(cards) {
      var k :| 0 <= k < |DistinctTopics(cards)| && DistinctTopics(cards)[k] == t;
      var i :| 0 <= i < |ts| && ts[i] == t;
      assert cards[i].topic == t;
    }
    if exists i :: 0 <= i < |cards| && cards[i].topic == t {
      var i :| 0 <= i < |cards| && cards[i].topic == t;
      assert ts[i] == t;
    }
    forall i, j | 0 <= i < j < |DistinctTopics(cards)|
      ensures Seqs.FirstIndex(ts, DistinctTopics(cards)[i]) < Seqs.FirstIndex(ts, DistinctTopics(cards)[j])
    {
      Seqs.DistinctFirstOccurrenceOrder(ts, i, j);
    }
  }

  /** The search test: the lowercased question, answer or topic contains `term`. */
  predicate MatchesTerm(c: Card, term: string) {
    Contains(ToLower(c.question), term) || Contains(ToLower(c.answer), term)
    || Contains(ToLower(c.topic), term)
  }

  /** `filterCards`: the trimmed, lowercased search term when it is not blank, then the
      topic when one is selected. */
  function FilteredCards(cards: seq<Card>, searchTerm: string, selectedTopic: string): seq<Card> {
    var term := ToLower(Trim(searchTerm));
    var searched := if Trim(searchTerm) != "" then Seqs.Filter(cards, (c: Card) => MatchesTerm(c, term)) else cards;
    if selectedTopic != "" then Seqs.Filter(searched, (c: Card) => c.topic == selectedTopic) else searched
  }

  /** A card is shown exactly when it passes the search and the topic test; the result keeps
      the order of the cards. */
  lemma FilteredCardsExact(cards: seq<Card>, searchTerm: string, selectedTopic: string, c: Card)
    ensures c in FilteredCards(cards, searchTerm, selectedTopic) <==>
      && c in cards
      && (Trim(searchTerm) == "" || MatchesTerm(c, ToLower(Trim(searchTerm))))
      && (selectedTopic == "" || c.topic == selectedTopic)
    ensures Seqs.IsSubsequence(FilteredCards(cards, searchTerm, selectedTopic), cards)
  {
    var term := ToLower(Trim(searchTerm));
    var searched := if Trim(searchTerm) != "" then Seqs.Filter(cards, (c: Card) => MatchesTerm(c, term)) else cards;
    if Trim(searchTerm) != "" {
      Seqs.FilterIsSubsequence(cards, (c: Card) => MatchesTerm(c, term));
    } else {
      Seqs.FilterKeepsAll(cards, (c: Card) => true);
      Seqs.FilterIsSubsequence(cards, (c: Card) => true);
    }
    assert Seqs.IsSubsequence(searched, cards);
    if selectedTopic != "" {
      Seqs.FilterIsSubsequence(searched, (c: Card) => c.topic == selectedTopic);
      Seqs.SubsequenceTransitive(FilteredCards(cards, searchTerm, selectedTopic), searched, cards);
    }
  }

  /** A blank or whitespace-only term with no topic selected shows every card. */
  lemma BlankSearchShowsAll(cards: seq<Card>, searchTerm: string)
    requires AllSpace(searchTerm)
    ensures FilteredCards(cards, searchTerm, "") == cards
  {
    TrimShape(searchTerm);
  }

  /** Create and update need a question and an answer that are not blank; the topic may be
      empty. */
  predicate CanSave(c: Card) {
    Trim(c.question) != "" && Trim(c.answer) != ""
  }

  lemma CanSaveExact(c: Card)
    ensures CanSave(c) <==> !AllSpace(c.question) && !AllSpace(c.answer)
    ensures CanSave(c) ==> CanSave(c.(topic := ""))
  {
    TrimShape(c.question);
    TrimShape(c.answer);
  }

  const EmptyCard := Card(0, "", "", "")

  class Page {
    var cards: seq<Card>
    var filteredCards: seq<Card>
    var searchTerm: string
    var selectedTopic: string
    var topics: seq<string>
    var newCard: Card
    var editingCard: Option<Card>
    var isFormOpen: bool
    var studyMode: bool
    var currentStudyIndex: int
    var showAnswer: bool

    /** The effects have run: topics and filtered cards follow the cards and the filters. */
    ghost predicate Valid()
      reads this
    {
      && topics == DistinctTopics(cards)
      && filteredCards == FilteredCards(cards, searchTerm, selectedTopic)
      && currentStudyIndex >= 0
    }

    /** In study mode the index names a filtered card. */
    ghost predicate StudyIndexInRange()
      reads this
    {
      studyMode ==> currentStudyIndex < |filteredCards|
    }

    constructor ()
      ensures Valid() && cards == [] && filteredCards == [] && !studyMode
    {
      cards, filteredCards, searchTerm, selectedTopic, topics := [], [], "", "", [];
      newCard, editingCard, isFormOpen := EmptyCard, None, false;
      studyMode, currentStudyIndex, showAnswer := false, 0, false;
      new;
      Seqs.FilterKeepsAll([], (c: Card) => true);
    }

    /** `filterCards`, run by the effect whenever the cards or the filters change. */
    method FilterCards()
      modifies this
      ensures filteredCards == FilteredCards(cards, searchTerm, selectedTopic)
      ensures cards == old(cards) && searchTerm == old(searchTerm) && selectedTopic == old(selectedTopic)
      ensures topics == old(topics) && studyMode == old(studyMode)
      ensures currentStudyIndex == old(currentStudyIndex) && showAnswer == old(showAnswer)
      ensures newCard == old(newCard) && editingCard == old(editingCard) && isFormOpen == old(isFormOpen)
    {
      var result := cards;
      if Trim(searchTerm) != "" {
        var term := ToLower(Trim(searchTerm));
        result := Seqs.Filter(result, (c: Card) => MatchesTerm(c, term));
      }
      if selectedTopic != "" {
        var topic := selectedTopic;
        result := Seqs.Filter(result, (c: Card) => c.topic == topic);
      }
      filteredCards := result;
    }

    /** A reload from the server, followed by the topics and filter effects. */
    method SetCards(fetched: seq<Card>)
      requires Valid()
      modifies this
      ensures Valid() && cards == fetched
      ensures searchTerm == old(searchTerm) && selectedTopic == old(selectedTopic)
      ensures studyMode == old(studyMode) && currentStudyIndex == old(currentStudyIndex)
      ensures showAnswer == old(showAnswer) && newCard == old(newCard)
      ensures editingCard == old(editingCard) && isFormOpen == old(isFormOpen)
    {
      cards := fetched;
      topics := DistinctTopics(cards);
      FilterCards();
    }

    method SetSearchTerm(t: string)
      requires Valid()
      modifies this
      ensures Valid() && searchTerm == t && cards == old(cards) && selectedTopic == old(selectedTopic)
      ensures studyMode == old(studyMode) && currentStudyIndex == old(currentStudyIndex)
      ensures showAnswer == old(showAnswer) && newCard == old(newCard)
      ensures editingCard == old(editingCard) && isFormOpen == old(isFormOpen)
    {
      searchTerm := t;
      FilterCards();
    }

    method SetSelectedTopic(t: string)
      requires Valid()
      modifies this
      ensures Valid() && selectedTopic == t && cards == old(cards) && searchTerm == old(searchTerm)
      ensures studyMode == old(studyMode) && currentStudyIndex == old(currentStudyIndex)
      ensures showAnswer == old(showAnswer) && newCard == old(newCard)
      ensures editingCard == old(editingCard) && isFormOpen == old(isFormOpen)
    {
      selectedTopic := t;
      FilterCards();
    }

    /** `handleCreate`: a blank question or answer is refused with nothing posted; otherwise
        the draft is posted and, when the server accepts it, cleared with the form closed. */
    method HandleCreate(accepted: bool) returns (posted: Option<Card>)
      requires Valid()
      modifies this
      ensures Valid()
      ensures posted == if CanSave(old(newCard)) then Some(old(newCard)) else None
      ensures newCard == if posted.Some? && accepted then EmptyCard else old(newCard)
      ensures isFormOpen == if posted.Some? && accepted then false else old(isFormOpen)
      ensures cards == old(cards) && filteredCards == old(filteredCards)
      ensures editingCard == old(editingCard) && studyMode == old(studyMode)
      ensures currentStudyIndex == old(currentStudyIndex)
    {
      if Trim(newCard.question) == "" || Trim(newCard.answer) == "" {
        return None;
      }
      posted := Some(newCard);
      if accepted {
        newCard := EmptyCard;
        isFormOpen := false;
      }
    }

    /** `handleUpdate`, on the card being edited. */
    method HandleUpdate(accepted: bool) returns (posted: Option<Card>)
      requires Valid() && editingCard.Some?
      modifies this
      ensures Valid()
      ensures posted == if CanSave(old(editingCard).value) then old(editingCard) else None
      ensures editingCard == if posted.Some? && accepted then None else old(editingCard)
      ensures isFormOpen == if posted.Some? && accepted then false else old(isFormOpen)
      ensures cards == old(cards) && filteredCards == old(filteredCards) && newCard == old(newCard)
      ensures studyMode == old(studyMode) && currentStudyIndex == old(currentStudyIndex)
    {
      var c := editingCard.value;
      if Trim(c.question) == "" || Trim(c.answer) == "" {
        return None;
      }
      posted := editingCard;
      if accepted {
        editingCard := None;
        isFormOpen := false;
      }
    }

    /** `handleEditClick`: a copy of the card becomes the draft being edited, in an open form. */
    method EditClick(card: Card)
      requires Valid()
      modifies this
      ensures Valid() && editingCard == Some(card) && isFormOpen
      ensures cards == old(cards) && filteredCards == old(filteredCards) && newCard == old(newCard)
      ensures studyMode == old(studyMode) && currentStudyIndex == old(currentStudyIndex)
    {
      editingCard := Some(card);
      isFormOpen := true;
    }

    method StartStudyMode()
      requires Valid()
      modifies this
      ensures Valid() && studyMode && currentStudyIndex == 0 && !showAnswer
      ensures filteredCards == old(filteredCards) && cards == old(cards)
      ensures |filteredCards| > 0 ==> StudyIndexInRange()
    {
      studyMode := true;
      currentStudyIndex := 0;
      showAnswer := false;
    }

    /** `nextCard`: the next card with its answer hidden, or, at the last card, the end of
        study mode. */
    method NextCard()
      requires Valid()
      modifies this
      ensures Valid() && filteredCards == old(filteredCards) && cards == old(cards)
      ensures old(currentStudyIndex) < |filteredCards| - 1 ==>
                studyMode == old(studyMode) && currentStudyIndex == old(currentStudyIndex) + 1 && !showAnswer
      ensures old(currentStudyIndex) >= |filteredCards| - 1 ==>
                !studyMode && currentStudyIndex == old(currentStudyIndex) && showAnswer == old(showAnswer)
      ensures old(StudyIndexInRange()) ==> StudyIndexInRange()
    {
      if currentStudyIndex < |filteredCards| - 1 {
        currentStudyIndex := currentStudyIndex + 1;
        showAnswer := false;
      } else {
        studyMode := false;
      }
    }

    /** `prevCard`: the previous card, unless at the first. */
    method PrevCard()
      requires Valid()
      modifies this
      ensures Valid() && filteredCards == old(filteredCards) && cards == old(cards)
      ensures studyMode == old(studyMode)
      ensures old(currentStudyIndex) > 0 ==> currentStudyIndex == old(currentStudyIndex) - 1 && !showAnswer
      ensures old(currentStudyIndex) == 0 ==> currentStudyIndex == 0 && showAnswer == old(showAnswer)
      ensures old(StudyIndexInRange()) ==> StudyIndexInRange()
    {
      if currentStudyIndex > 0 {
        currentStudyIndex := currentStudyIndex - 1;
        showAnswer := false;
      }
    }
  }
}
