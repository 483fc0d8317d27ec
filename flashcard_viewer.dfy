/**
 * The flashcard viewer component: the card list, fetched again whenever its set id changes, shown
 * one card at a time with a Next button that wraps around. The fetch ignores the set id and
 * always answers with the whole card list. The card component reads the question or the answer
 * of the card it is given.
 */
module FlashcardViewer {

  datatype Card = Card(question: string, answer: string)

  /** What the viewer renders: the empty-set placeholder, one card, or a read of a field of
      `undefined` (a render error). */
  datatype View = Placeholder | Show(card: Card) | Crash

  /** The render, for the cards held and the index held. */
  function Render(cards: seq<Card>, index: nat): (v: View)
    ensures v == Placeholder <==> cards == []
    ensures v.Show? <==> 0 <= index < |cards|
    ensures v.Show? ==> v.card == cards[index]
  {
    if |cards| == 0 then Placeholder
    else if index < |cards| then Show(cards[index])
    else Crash
  }

  /** The Next button: `(prev + 1) % cards.length`; the button is only rendered for a
      non-empty set. */
  function NextIndex(index: nat, count: nat): (r: nat)
    requires count > 0
    ensures r < count
    ensures index < count - 1 ==> r == index + 1
    ensures index == count - 1 ==> r == 0
  {
    (index + 1) % count
  }

  class Viewer {
    var cards: seq<Card>
    var index: nat

    /** The index names a card whenever there is one. */
    ghost predicate Valid()
      reads this
    {
      cards != [] ==> index < |cards|
    }

    constructor ()
      ensures Valid() && cards == [] && index == 0
    {
      cards, index := [], 0;
    }

    method NextCard()
      requires cards != []
      modifies this
      ensures cards == old(cards) && index == NextIndex(old(index), |cards|)
      ensures Valid()
    {
      index := (index + 1) % |cards|;
    }

    /** The set id changed and the card list arrived again (the whole list, whatever the set):
        the cards are replaced and the index is kept. */
    method LoadSet(fetched: seq<Card>)
      modifies this
      ensures cards == fetched && index == old(index)
    {
      cards := fetched;
    }

    /** The load with the index reset to the first card. */
    method LoadSetCorrected(fetched: seq<Card>)
      modifies this
      ensures cards == fetched && index == 0
      ensures Valid()
      ensures Render(cards, index) != Crash
    {
      cards := fetched;
      index := 0;
    }

    method View() returns (v: View)
      ensures v == Render(cards, index)
    {
      v := Render(cards, index);
    }
  }

  /** The list holds three cards and Next is pressed twice. One card is then deleted elsewhere,
      and the set id changes: the refetched list has two cards, the viewer keeps index 2 and
      renders a field of a card that is not there. */
  method SwitchToSmallerSet(a: Card, b: Card, c: Card) returns (v: View)
    ensures v == Crash
  {
    var viewer := new Viewer();
    viewer.LoadSet([a, b, c]);
    viewer.NextCard();
    viewer.NextCard();
    viewer.LoadSet([a, b]);
    v := viewer.View();
  }

  /** The same steps with the corrected load show the first card of the shrunk list. */
  method SwitchToSmallerSetCorrected(a: Card, b: Card, c: Card) returns (v: View)
    ensures v == Show(a)
  {
    var viewer := new Viewer();
    viewer.LoadSetCorrected([a, b, c]);
    viewer.NextCard();
    viewer.NextCard();
    viewer.LoadSetCorrected([a, b]);
    v := viewer.View();
  }
}
