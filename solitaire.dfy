/**
 * The solitaire table: cards are the numbers 1..52, a shuffled deck is dealt
 * into seven tableau piles of 1..7 cards, and four foundations start empty.
 * The shuffled order is an input.  A card's face is its value followed by its
 * suit, both read off the card number.
 */
module Solitaire {

  const DeckSize := 52
  const SuitSize := 13
  const PileCount := 7
  const FoundationCount := 4

  const Suits: seq<string> := ["♠", "♥", "♦", "♣"]
  const Values: seq<string> := ["A", "2", "3", "4", "5", "6", "7", "8", "9", "10", "J", "Q", "K"]

  predicate IsCard(card: int) {
    1 <= card <= DeckSize
  }

  /** The index into `Suits` of a card. */
  function SuitIndex(card: int): (s: int)
    requires IsCard(card)
    ensures 0 <= s < |Suits|
  {
    (card - 1) / SuitSize
  }

  /** The index into `Values` of a card. */
  function ValueIndex(card: int): (v: int)
    requires IsCard(card)
    ensures 0 <= v < |Values|
  {
    (card - 1) % SuitSize
  }

  /** The card with the given suit and value indices. */
  function CardOf(suit: int, value: int): int {
    suit * SuitSize + value + 1
  }

  /** `cardView`'s text: the value, then the suit. */
  function Face(card: int): string
    requires IsCard(card)
  {
    Values[ValueIndex(card)] + Suits[SuitIndex(card)]
  }

  /** Suit and value indices name every card, and every pair of indices names one card. */
  lemma CardIndicesRoundTrip(card: int, suit: int, value: int)
    requires IsCard(card) && 0 <= suit < |Suits| && 0 <= value < |Values|
    ensures CardOf(SuitIndex(card), ValueIndex(card)) == card
    ensures IsCard(CardOf(suit, value)) && SuitIndex(CardOf(suit, value)) == suit && ValueIndex(CardOf(suit, value)) == value
  {
  }

  /** Distinct cards show distinct faces: the face gives the card back. */
  lemma FaceIdentifiesCard(a: int, b: int)
    requires IsCard(a) && IsCard(b) && Face(a) == Face(b)
    ensures a == b
  {
    var s, t := SuitIndex(a), SuitIndex(b);
    var v, w := ValueIndex(a), ValueIndex(b);
    var f := Face(a);
    assert |Suits[s]| == 1 && |Suits[t]| == 1;
    assert f == Values[v] + Suits[s] == Values[w] + Suits[t];
    assert Suits[s][0] == f[|f| - 1] == Suits[t][0];
    assert s == t;
    assert Values[v] == f[..|f| - 1] == Values[w];
    assert v == w;
    CardIndicesRoundTrip(a, 0, 0);
    CardIndicesRoundTrip(b, 0, 0);
  }

  /** A full deck: 52 different cards, every one of them in 1..52. */
  predicate IsFullDeck(s: seq<int>) {
    |s| == DeckSize && (forall i :: 0 <= i < |s| ==> IsCard(s[i])) &&
    (forall i, j :: 0 <= i < j < |s| ==> s[i] != s[j])
  }

  /** The number of cards dealt to the first n piles: 1 + 2 + … + n. */
  function Dealt(n: nat): nat {
    if n == 0 then 0 else Dealt(n - 1) + n
  }

  /** The piles laid end to end. */
  function Concat(piles: seq<seq<int>>): seq<int> {
    if piles == [] then [] else Concat(piles[..|piles| - 1]) + piles[|piles| - 1]
  }

  /** Pile p is the stretch of `s` that the deal cuts for it. */
  predicate IsCut(piles: seq<seq<int>>, s: seq<int>, p: nat)
    requires p < |piles|
  {
    Dealt(p + 1) <= |s| && Dealt(p) <= Dealt(p + 1) && piles[p] == s[Dealt(p)..Dealt(p + 1)]
  }

  /** Piles cut one after another from the front of a deck, laid end to end, give that front back. */
  lemma {:induction false} ConcatOfCuts(piles: seq<seq<int>>, s: seq<int>, n: nat)
    requires n <= |piles| && Dealt(n) <= |s|
    requires forall p :: 0 <= p < n ==> IsCut(piles, s, p)
    ensures Concat(piles[..n]) == s[..Dealt(n)]
  {
    if n > 0 {
      assert piles[..n][..n - 1] == piles[..n - 1];
      ConcatOfCuts(piles, s, n - 1);
      assert IsCut(piles, s, n - 1);
      assert s[..Dealt(n)] == s[..Dealt(n - 1)] + s[Dealt(n - 1)..Dealt(n)];
    }
  }

  class SolitaireGame {
    var deck: seq<int>
    var piles: seq<seq<int>>
    var foundations: seq<seq<int>>

    /** Seven piles and four foundations; the piles and the deck hold every card exactly once. */
    predicate Valid()
      reads this
    {
      |piles| == PileCount && |foundations| == FoundationCount && IsFullDeck(Concat(piles) + deck)
    }

    /** The table before the first deal: the whole shuffled deck and empty piles. */
    constructor(shuffled: seq<int>)
      requires IsFullDeck(shuffled)
      ensures Valid()
      ensures deck == shuffled && piles == seq(PileCount, _ => []) && foundations == seq(FoundationCount, _ => [])
    {
      var empty: seq<seq<int>> := seq(PileCount, _ => []);
      EmptyPiles(empty);
      assert Concat(empty) + shuffled == shuffled;
      deck := shuffled;
      piles := empty;
      foundations := seq(FoundationCount, _ => []);
    }

    /**
     * `deal`: a new shuffled deck; pile i takes the next i + 1 cards from the
     * top, so 28 cards go to the piles and 24 stay in the deck.
     */
    method Deal(shuffled: seq<int>)
      requires IsFullDeck(shuffled)
      modifies this
      ensures Valid()
      ensures forall p :: 0 <= p < PileCount ==> |piles[p]| == p + 1 && IsCut(piles, shuffled, p)
      ensures |deck| == DeckSize - Dealt(PileCount) == 24 && deck == shuffled[Dealt(PileCount)..]
      ensures Concat(piles) + deck == shuffled
      ensures foundations == seq(FoundationCount, _ => [])
    {
      piles, deck := DealPiles(shuffled);
      foundations := seq(FoundationCount, _ => []);
      forall p | 0 <= p < PileCount
        ensures |piles[p]| == p + 1
      {
        assert IsCut(piles, shuffled, p);
      }
      ConcatOfCuts(piles, shuffled, PileCount);
      assert piles[..PileCount] == piles;
      assert shuffled[..Dealt(PileCount)] + shuffled[Dealt(PileCount)..] == shuffled;
    }
  }

  /** The loop of `deal`: pile i takes the next i + 1 cards from the top of the deck. */
  method DealPiles(shuffled: seq<int>) returns (piles: seq<seq<int>>, deck: seq<int>)
    requires |shuffled| == DeckSize
    ensures |piles| == PileCount && forall p :: 0 <= p < PileCount ==> IsCut(piles, shuffled, p)
    ensures deck == shuffled[Dealt(PileCount)..]
  {
    deck := shuffled;
    piles := seq(PileCount, _ => []);
    var i := 0;
    while i < PileCount
      invariant 0 <= i <= PileCount && |piles| == PileCount
      invariant Dealt(i) <= Dealt(PileCount) == 28
      invariant deck == shuffled[Dealt(i)..]
      invariant forall p :: 0 <= p < i ==> IsCut(piles, shuffled, p)
    {
      DealtGrows(i, PileCount);
      ghost var before := piles;
      piles := piles[i := deck[..i + 1]];
      deck := deck[i + 1..];
      forall p | 0 <= p <= i
        ensures IsCut(piles, shuffled, p)
      {
        if p < i {
          assert IsCut(before, shuffled, p);
        }
      }
      i := i + 1;
    }
  }

  /** More piles dealt means more cards dealt. */
  lemma {:induction false} DealtGrows(i: nat, n: nat)
    requires i < n
    ensures Dealt(i + 1) <= Dealt(n)
    decreases n - i
  {
    if i + 1 < n {
      DealtGrows(i + 1, n);
    }
  }

  /** Empty piles laid end to end hold no card. */
  lemma {:induction false} EmptyPiles(piles: seq<seq<int>>)
    requires forall p :: 0 <= p < |piles| ==> piles[p] == []
    ensures Concat(piles) == []
  {
    if piles != [] {
      EmptyPiles(piles[..|piles| - 1]);
    }
  }
}
