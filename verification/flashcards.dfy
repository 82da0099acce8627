/** The flashcard deck (src/components/Flashcards.tsx): the rows produced by
    the CSV parser are turned into cards, and a bounded index with a flip
    flag and a slide direction moves through them. The CSV parser itself is
    a foreign library; its output is taken as a sequence of rows. */
module Flashcards {

  import opened Strings

  datatype Card = Card(question: string, answer: string)

  /** One parsed CSV row: its fields in order. */
  type Row = seq<string>

  /** The row filter: at least two fields and a non-empty first field. */
  predicate Keep(row: Row) {
    |row| >= 2 && row[0] != ""
  }

  /** The row map: the first two fields, any further fields dropped. */
  function CardOf(row: Row): (c: Card)
    requires |row| >= 2
    ensures c.question == row[0] && c.answer == row[1]
  {
    Card(row[0], row[1])
  }

  /** The cards of a list of rows: the kept rows, mapped, in order. */
  function CardsOf(rows: seq<Row>): (cards: seq<Card>)
    ensures |cards| <= |rows|
    ensures forall i :: 0 <= i < |cards| ==> cards[i].question != ""
    ensures forall c :: c in cards ==> exists j :: 0 <= j < |rows| && Keep(rows[j]) && c == CardOf(rows[j])
    ensures forall j :: 0 <= j < |rows| && Keep(rows[j]) ==> CardOf(rows[j]) in cards
    decreases |rows|
  {
    if |rows| == 0 then []
    else
      var front := CardsOf(rows[..|rows| - 1]);
      var last := rows[|rows| - 1];
      assert forall j :: 0 <= j < |rows| - 1 ==> rows[..|rows| - 1][j] == rows[j];
      if Keep(last) then front + [CardOf(last)] else front
  }

  /** Appending rows appends their cards: the filter keeps the rows' order. */
  lemma {:induction false} CardsOfAppend(a: seq<Row>, b: seq<Row>)
    ensures CardsOf(a + b) == CardsOf(a) + CardsOf(b)
    decreases |b|
  {
    if |b| == 0 {
      assert a + b == a;
    } else {
      var b' := b[..|b| - 1];
      assert (a + b)[..|a + b| - 1] == a + b';
      CardsOfAppend(a, b');
    }
  }

  /** Rows of two or more fields with a non-empty question become exactly
      one card each; a short row, an empty question and extra fields are
      dropped. */
  lemma ParseExample()
    ensures CardsOf([["Q1", "A1", "extra"], ["", "A2"], ["Q3"], ["Q4", ""]])
         == [Card("Q1", "A1"), Card("Q4", "")]
  {
    var rows: seq<Row> := [["Q1", "A1", "extra"], ["", "A2"], ["Q3"], ["Q4", ""]];
    assert rows[..3][..2][..1] == [["Q1", "A1", "extra"]];
    assert rows[..3][..2] == [["Q1", "A1", "extra"], ["", "A2"]];
    assert rows[..3] == [["Q1", "A1", "extra"], ["", "A2"], ["Q3"]];
    assert CardsOf(rows[..3][..2][..1]) == [Card("Q1", "A1")];
    assert CardsOf(rows[..3][..2]) == [Card("Q1", "A1")];
    assert CardsOf(rows[..3]) == [Card("Q1", "A1")];
  }

  // ---- The deck ----------------------------------------------------------------

  /** The component's state: the cards, the current index, whether the card
      shows its answer, and the direction of the last move (0 before any). */
  datatype Deck = Deck(cards: seq<Card>, index: int, isFlipped: bool, direction: int)

  /** The index always points at a card once the deck has cards. */
  predicate Valid(d: Deck) {
    0 <= d.index && (|d.cards| > 0 ==> d.index < |d.cards|)
  }

  /** The state on mount: no cards yet, index 0, question side, no move. */
  function Initial(): (d: Deck)
    ensures Valid(d) && |d.cards| == 0 && d.index == 0 && !d.isFlipped && d.direction == 0
  {
    Deck([], 0, false, 0)
  }

  /** The parse result arrives; the index and flags stay as they were. */
  function Load(d: Deck, cards: seq<Card>): (e: Deck)
    ensures e.cards == cards && e.index == d.index && e.isFlipped == d.isFlipped
  {
    d.(cards := cards)
  }

  /** `handleNext`: move right only when not on the last card; a move shows
      the question side and records direction +1. */
  function Next(d: Deck): (e: Deck)
    ensures e.cards == d.cards
    ensures d.index < |d.cards| - 1 ==> e == d.(index := d.index + 1, isFlipped := false, direction := 1)
    ensures d.index >= |d.cards| - 1 ==> e == d
  {
    if d.index < |d.cards| - 1 then d.(index := d.index + 1, isFlipped := false, direction := 1) else d
  }

  /** `handlePrev`: move left only when not on the first card; a move shows
      the question side and records direction -1. */
  function Prev(d: Deck): (e: Deck)
    ensures e.cards == d.cards
    ensures d.index > 0 ==> e == d.(index := d.index - 1, isFlipped := false, direction := -1)
    ensures d.index <= 0 ==> e == d
  {
    if d.index > 0 then d.(index := d.index - 1, isFlipped := false, direction := -1) else d
  }

  /** `handleFlip`: turn the card over; nothing else changes. */
  function Flip(d: Deck): (e: Deck)
    ensures e.isFlipped == !d.isFlipped
    ensures e.(isFlipped := d.isFlipped) == d
  {
    d.(isFlipped := !d.isFlipped)
  }

  /** The left control is disabled exactly on the first card. */
  predicate PrevDisabled(d: Deck) {
    d.index == 0
  }

  /** The right control is disabled exactly on the last card. */
  predicate NextDisabled(d: Deck) {
    d.index == |d.cards| - 1
  }

  /** The card on screen, or none while the deck is empty ("Loading"). */
  function CurrentCard(d: Deck): (c: Option<Card>)
    requires Valid(d)
    ensures c.None? <==> |d.cards| == 0
    ensures c.Some? ==> c.value == d.cards[d.index]
  {
    if |d.cards| == 0 then None else Some(d.cards[d.index])
  }

  datatype Action = NextCard | PrevCard | FlipCard

  function Step(d: Deck, a: Action): Deck {
    match a
    case NextCard => Next(d)
    case PrevCard => Prev(d)
    case FlipCard => Flip(d)
  }

  /** The deck after a sequence of clicks, in order. */
  function Run(d: Deck, actions: seq<Action>): (e: Deck)
    ensures e.cards == d.cards
    decreases |actions|
  {
    if |actions| == 0 then d else Run(Step(d, actions[0]), actions[1..])
  }

  // ---- Properties ------------------------------------------------------------

  /** Each single action keeps the index in range. */
  lemma StepKeepsValid(d: Deck, a: Action)
    requires Valid(d)
    ensures Valid(Step(d, a))
  {
  }

  /** Any sequence of clicks keeps 0 <= index < length on a non-empty deck. */
  lemma {:induction false} RunKeepsValid(d: Deck, actions: seq<Action>)
    requires Valid(d)
    ensures Valid(Run(d, actions))
    decreases |actions|
  {
    if |actions| > 0 {
      StepKeepsValid(d, actions[0]);
      RunKeepsValid(Step(d, actions[0]), actions[1..]);
    }
  }

  /** From the loaded deck, whatever the clicks, the card on screen exists. */
  lemma LoadedDeckStaysInRange(cards: seq<Card>, actions: seq<Action>)
    requires |cards| > 0
    ensures 0 <= Run(Load(Initial(), cards), actions).index < |cards|
  {
    RunKeepsValid(Load(Initial(), cards), actions);
  }

  /** The disabled controls are exactly the ones whose click would do nothing
      (on a valid non-empty deck). */
  lemma DisabledMatchesGuards(d: Deck)
    requires Valid(d) && |d.cards| > 0
    ensures NextDisabled(d) <==> Next(d) == d
    ensures PrevDisabled(d) <==> Prev(d) == d
  {
  }

  /** A move right followed by a move left returns to the same card. */
  lemma PrevUndoesNext(d: Deck)
    requires Valid(d) && !NextDisabled(d) && |d.cards| > 0
    ensures Prev(Next(d)).index == d.index
    ensures !Prev(Next(d)).isFlipped
  {
  }

  /** Flipping twice is the identity. */
  lemma FlipTwice(d: Deck)
    ensures Flip(Flip(d)) == d
  {
  }
}
