/**
 * Memory Match: sixteen cards, two per symbol.  Flipping a card turns it face
 * up unless it is already matched or two cards are already face up; when two
 * are face up and belong to the same pair, both are matched and 10 points are
 * scored.  The shuffle is an input; the one-second delay that turns a
 * mismatched pair face down again is the event `ClearFlipped`.
 */
module Memory {

  datatype Card = Card(id: int, symbol: string, pairId: int)

  const Symbols: seq<string> := ["🎮", "🎯", "🎲", "🎪", "🎨", "🎭", "🎬", "🎸"]

  /** The first n symbols' cards, in the order `startGame` appends them: ids 2i and 2i+1 share pair i. */
  function DeckPrefix(n: nat): (d: seq<Card>)
    requires n <= |Symbols|
    ensures |d| == 2 * n
    ensures forall k :: 0 <= k < 2 * n ==> d[k] == DeckCard(k)
  {
    if n == 0 then []
    else DeckPrefix(n - 1) + [Card(2 * (n - 1), Symbols[n - 1], n - 1), Card(2 * (n - 1) + 1, Symbols[n - 1], n - 1)]
  }

  /** The card `startGame` creates with id k: symbol and pair k / 2. */
  function DeckCard(k: int): Card
    requires 0 <= k < 2 * |Symbols|
  {
    Card(k, Symbols[k / 2], k / 2)
  }

  function Deck(): seq<Card> {
    DeckPrefix(|Symbols|)
  }

  /** The other card of the pair card `id` belongs to. */
  function Partner(id: int): int {
    if id % 2 == 0 then id + 1 else id - 1
  }

  lemma PartnerInvolution(id: int)
    ensures Partner(id) != id && Partner(Partner(id)) == id
  {
  }

  /** What `shuffled()` yields: the sixteen deck cards, each exactly once, in some order. */
  predicate IsShuffledDeck(cards: seq<Card>) {
    |cards| == 16 &&
    (forall k :: 0 <= k < 16 ==> IsDeckCard(cards[k])) &&
    (forall i, j :: 0 <= i < j < 16 ==> cards[i].id != cards[j].id)
  }

  /** A card exactly as `startGame` creates it. */
  predicate IsDeckCard(c: Card) {
    0 <= c.id < 16 && c == DeckCard(c.id)
  }

  function IdSet(cards: seq<Card>): set<int> {
    set c | c in cards :: c.id
  }

  /** `cards.filter { flipped.contains($0.id) }`. */
  function FaceUp(cards: seq<Card>, ids: set<int>): (f: seq<Card>)
    ensures |f| <= |cards|
  {
    if |cards| == 0 then []
    else (if cards[0].id in ids then [cards[0]] else []) + FaceUp(cards[1..], ids)
  }

  predicate DistinctIds(cards: seq<Card>) {
    forall i, j :: 0 <= i < j < |cards| ==> cards[i].id != cards[j].id
  }

  // ------------------------------------------------------------ the deck

  /** The deck holds every id 0..15 once, and the two cards of a pair show the same symbol. */
  lemma DeckLayout()
    ensures |Deck()| == 16
    ensures forall k :: 0 <= k < 16 ==> Deck()[k].id == k && Deck()[k].pairId == k / 2
    ensures forall k :: 0 <= k < 16 ==> Deck()[Partner(k)].pairId == Deck()[k].pairId
    ensures forall k :: 0 <= k < 16 ==> Deck()[Partner(k)].symbol == Deck()[k].symbol
    ensures forall k :: 0 <= k < 16 ==> Partner(k) != k && Partner(Partner(k)) == k
  {
  }

  /** The unshuffled deck is one of the orders a shuffle may produce. */
  lemma DeckIsShuffledDeck()
    ensures IsShuffledDeck(Deck())
  {
  }

  /** Two different cards of a shuffled deck share a pair id exactly when they are partners. */
  lemma SamePairMeansPartner(cards: seq<Card>, a: Card, b: Card)
    requires IsShuffledDeck(cards) && a in cards && b in cards && a.id != b.id
    ensures a.pairId == b.pairId <==> b.id == Partner(a.id)
  {
    var i :| 0 <= i < 16 && cards[i] == a;
    var j :| 0 <= j < 16 && cards[j] == b;
  }

  // ------------------------------------------------------------ the face-up filter

  lemma DistinctTail(cards: seq<Card>)
    requires |cards| > 0 && DistinctIds(cards)
    ensures DistinctIds(cards[1..])
    ensures cards[0].id !in IdSet(cards[1..])
  {
    var rest := cards[1..];
    forall i, j | 0 <= i < j < |rest|
      ensures rest[i].id != rest[j].id
    {
      assert rest[i] == cards[i + 1] && rest[j] == cards[j + 1];
    }
    forall d | d in rest
      ensures d.id != cards[0].id
    {
      var j :| 0 <= j < |rest| && rest[j] == d;
      assert cards[j + 1] == d;
    }
  }

  lemma IdSetCons(cards: seq<Card>)
    requires |cards| > 0
    ensures IdSet(cards) == {cards[0].id} + IdSet(cards[1..])
  {
    assert forall d :: d in cards <==> d == cards[0] || d in cards[1..];
  }

  lemma DistinctCons(c: Card, tail: seq<Card>)
    requires DistinctIds(tail) && forall j :: 0 <= j < |tail| ==> tail[j].id != c.id
    ensures DistinctIds([c] + tail)
  {
    var s := [c] + tail;
    forall i, j | 0 <= i < j < |s|
      ensures s[i].id != s[j].id
    {
      assert s[j] == tail[j - 1];
      if i > 0 {
        assert s[i] == tail[i - 1];
      }
    }
  }

  /** The filter keeps only dealt cards with a listed id. */
  lemma {:induction false} FaceUpMembers(cards: seq<Card>, ids: set<int>)
    ensures forall c :: c in FaceUp(cards, ids) ==> c in cards && c.id in ids
  {
    if |cards| > 0 {
      FaceUpMembers(cards[1..], ids);
      assert forall d :: d in cards[1..] ==> d in cards;
    }
  }

  /** The listed ids among the dealt cards, counted one card at a time. */
  lemma ListedIdsCons(cards: seq<Card>, ids: set<int>)
    requires |cards| > 0 && cards[0].id !in IdSet(cards[1..])
    ensures |ids * IdSet(cards)| == (if cards[0].id in ids then 1 else 0) + |ids * IdSet(cards[1..])|
  {
    var c := cards[0];
    IdSetCons(cards);
    if c.id in ids {
      assert ids * IdSet(cards) == {c.id} + ids * IdSet(cards[1..]);
      assert c.id !in ids * IdSet(cards[1..]);
    } else {
      assert ids * IdSet(cards) == ids * IdSet(cards[1..]);
    }
  }

  /** The filter keeps one card per listed id present. */
  lemma {:induction false} FaceUpCount(cards: seq<Card>, ids: set<int>)
    requires DistinctIds(cards)
    ensures |FaceUp(cards, ids)| == |ids * IdSet(cards)|
  {
    if |cards| > 0 {
      DistinctTail(cards);
      FaceUpCount(cards[1..], ids);
      ListedIdsCons(cards, ids);
      assert FaceUp(cards, ids) == (if cards[0].id in ids then [cards[0]] else []) + FaceUp(cards[1..], ids);
    }
  }

  /** The filter never keeps two cards with the same id. */
  lemma {:induction false} FaceUpDistinct(cards: seq<Card>, ids: set<int>)
    requires DistinctIds(cards)
    ensures DistinctIds(FaceUp(cards, ids))
  {
    if |cards| > 0 {
      var c := cards[0];
      var rest := cards[1..];
      DistinctTail(cards);
      FaceUpDistinct(rest, ids);
      var tail := FaceUp(rest, ids);
      assert FaceUp(cards, ids) == (if c.id in ids then [c] else []) + tail;
      if c.id in ids {
        FaceUpMembers(rest, ids);
        forall j | 0 <= j < |tail|
          ensures tail[j].id != c.id
        {
          assert tail[j] in tail;
        }
        DistinctCons(c, tail);
      }
    }
  }

  /**
   * With two dealt ids face up, the filter yields exactly those two cards.
   */
  lemma FaceUpOfTwo(cards: seq<Card>, ids: set<int>)
    requires IsShuffledDeck(cards) && ids <= IdSet(cards) && |ids| == 2
    ensures |FaceUp(cards, ids)| == 2
    ensures ids == {FaceUp(cards, ids)[0].id, FaceUp(cards, ids)[1].id}
    ensures FaceUp(cards, ids)[0].id != FaceUp(cards, ids)[1].id
    ensures FaceUp(cards, ids)[0] in cards && FaceUp(cards, ids)[1] in cards
  {
    assert DistinctIds(cards);
    FaceUpCount(cards, ids);
    FaceUpDistinct(cards, ids);
    FaceUpMembers(cards, ids);
    assert ids * IdSet(cards) == ids;
    var f := FaceUp(cards, ids);
    assert f[0] in f && f[1] in f;
    TwoOfTwo(ids, f[0].id, f[1].id);
  }

  /** A set of two elements is the set of any two different members. */
  lemma TwoOfTwo(s: set<int>, a: int, b: int)
    requires |s| == 2 && a in s && b in s && a != b
    ensures s == {a, b}
  {
    assert |s - {a, b}| == |s| - |{a, b}|;
  }

  // ------------------------------------------------------------ the game

  class MemoryGame {
    var cards: seq<Card>
    var flipped: set<int>
    var matched: set<int>
    var score: int
    var gameStarted: bool

    /**
     * The dealt cards are a shuffled deck; face-up and matched cards are dealt
     * cards, never both; at most two are face up; matched cards come in whole
     * pairs, each worth 10 points.
     */
    predicate Valid()
      reads this
    {
      (cards == [] || IsShuffledDeck(cards)) &&
      flipped <= IdSet(cards) && matched <= IdSet(cards) &&
      flipped !! matched && |flipped| <= 2 &&
      (forall id :: id in matched ==> Partner(id) in matched) &&
      score == 5 * |matched|
    }

    constructor()
      ensures Valid() && cards == [] && flipped == {} && matched == {} && score == 0 && !gameStarted
    {
      cards := [];
      flipped := {};
      matched := {};
      score := 0;
      gameStarted := false;
    }

    /** `startGame`: `shuffled` is the order `deck.shuffled()` produced. */
    method StartGame(shuffled: seq<Card>)
      requires IsShuffledDeck(shuffled)
      modifies this
      ensures Valid()
      ensures cards == shuffled && flipped == {} && matched == {} && score == 0 && gameStarted
    {
      cards := shuffled;
      flipped := {};
      matched := {};
      score := 0;
      gameStarted := true;
    }

    /**
     * `flipCard`: ignored on a matched card or with two cards face up;
     * otherwise the card turns face up, and if its partner was the card
     * already face up the pair is matched.
     */
    method FlipCard(card: Card)
      requires Valid() && card in cards
      modifies this
      ensures Valid()
      ensures cards == old(cards) && gameStarted == old(gameStarted)
      ensures card.id in old(matched) || |old(flipped)| >= 2 ==>
        flipped == old(flipped) && matched == old(matched) && score == old(score)
      ensures card.id !in old(matched) && |old(flipped)| < 2 && Partner(card.id) in old(flipped) ==>
        flipped == {} && matched == old(matched) + {card.id, Partner(card.id)} && score == old(score) + 10
      ensures card.id !in old(matched) && |old(flipped)| < 2 && Partner(card.id) !in old(flipped) ==>
        flipped == old(flipped) + {card.id} && matched == old(matched) && score == old(score)
    {
      if card.id in matched || |flipped| >= 2 {
        return;
      }
      ghost var before := flipped;
      DeckPartnerIds(cards, card.id, card.id);
      flipped := flipped + {card.id};
      if |flipped| == 2 {
        ghost var a, b := CheckPair();
        SecondCardPairs(before, card.id, a, b);
      } else {
        FirstCard(before, card.id);
      }
    }

    /**
     * The second half of `flipCard`: the two face-up cards a and b are
     * looked up in the dealt cards; a pair is matched.
     */
    method CheckPair() returns (ghost a: int, ghost b: int)
      requires Valid() && cards != [] && |flipped| == 2
      modifies this
      ensures Valid()
      ensures old(flipped) == {a, b} && a != b
      ensures cards == old(cards) && gameStarted == old(gameStarted)
      ensures a == Partner(b) ==> flipped == {} && matched == old(matched) + {a, b} && score == old(score) + 10
      ensures a != Partner(b) ==> flipped == old(flipped) && matched == old(matched) && score == old(score)
    {
      var flippedCards := FaceUp(cards, flipped);
      a, b := FaceUpPair(cards, flipped);
      if flippedCards[0].pairId == flippedCards[1].pairId {
        MatchFaceUp(cards, flipped, matched, a, b);
        matched := matched + flipped;
        score := score + 10;
        flipped := {};
      }
    }

    /** The delayed reset after a mismatch: both cards turn face down. */
    method ClearFlipped()
      requires Valid()
      modifies this
      ensures Valid()
      ensures flipped == {} && cards == old(cards) && matched == old(matched) && score == old(score)
      ensures gameStarted == old(gameStarted)
    {
      flipped := {};
    }
  }

  /** A second card turned up: the other face-up card was already up, alone. */
  lemma SecondCard(before: set<int>, id: int, a: int, b: int)
    requires |before| < 2 && before + {id} == {a, b} && a != b
    ensures id == a || id == b
    ensures before == if id == a then {b} else {a}
  {
    assert id in {a, b};
    assert id in before ==> before + {id} == before;
    if id == a {
      assert b in before;
      assert before <= {b};
      assert |before - {b}| == 0;
    } else {
      assert a in before;
      assert before <= {a};
      assert |before - {a}| == 0;
    }
  }

  /**
   * The second card turned up makes a pair exactly when its partner was the
   * card already face up, and the pair is then that card and its partner.
   */
  lemma SecondCardPairs(before: set<int>, id: int, a: int, b: int)
    requires |before| < 2 && before + {id} == {a, b} && a != b
    ensures a == Partner(b) <==> Partner(id) in before
    ensures a == Partner(b) ==> {a, b} == {id, Partner(id)}
  {
    SecondCard(before, id, a, b);
    PartnerInvolution(a);
    PartnerInvolution(b);
  }

  /** A first card turned up: at most that same card was face up. */
  lemma FirstCard(before: set<int>, id: int)
    requires |before| < 2 && |before + {id}| != 2
    ensures before <= {id}
  {
    if before != {} {
      var x :| x in before;
      assert |before - {x}| == 0;
      assert before == {x};
      assert before + {id} == {x} + {id};
    }
  }

  /** Matching a whole pair keeps matched cards in whole pairs and adds two of them. */
  lemma MatchPair(matched: set<int>, a: int, b: int)
    requires a !in matched && b !in matched && a != b && b == Partner(a) && a == Partner(b)
    requires forall id :: id in matched ==> Partner(id) in matched
    ensures forall id :: id in matched + {a, b} ==> Partner(id) in matched + {a, b}
    ensures |matched + {a, b}| == |matched| + 2
  {
    assert matched + {a, b} == (matched + {a}) + {b};
  }

  /** The two face-up cards: their ids are the face-up ids, and they show the same symbol exactly when they are partners. */
  lemma FaceUpPair(cards: seq<Card>, flipped: set<int>) returns (a: int, b: int)
    requires IsShuffledDeck(cards) && flipped <= IdSet(cards) && |flipped| == 2
    ensures |FaceUp(cards, flipped)| == 2
    ensures a == FaceUp(cards, flipped)[0].id && b == FaceUp(cards, flipped)[1].id
    ensures flipped == {a, b} && a != b
    ensures FaceUp(cards, flipped)[0].pairId == FaceUp(cards, flipped)[1].pairId <==> a == Partner(b)
    ensures a == Partner(b) <==> b == Partner(a)
  {
    var f := FaceUp(cards, flipped);
    FaceUpOfTwo(cards, flipped);
    a, b := f[0].id, f[1].id;
    SamePairMeansPartner(cards, f[0], f[1]);
    DeckPartnerIds(cards, a, b);
  }

  /** Matching the two face-up partners keeps the matched cards dealt, in whole pairs, and two more of them. */
  lemma MatchFaceUp(cards: seq<Card>, flipped: set<int>, matched: set<int>, a: int, b: int)
    requires flipped == {a, b} && a != b && b == Partner(a) && a == Partner(b)
    requires flipped <= IdSet(cards) && matched <= IdSet(cards) && flipped !! matched
    requires forall id :: id in matched ==> Partner(id) in matched
    ensures matched + flipped <= IdSet(cards)
    ensures forall id :: id in matched + flipped ==> Partner(id) in matched + flipped
    ensures |matched + flipped| == |matched| + 2
  {
    MatchPair(matched, a, b);
  }

  /** Partner ids are symmetric and never the card itself. */
  lemma DeckPartnerIds(cards: seq<Card>, a: int, b: int)
    requires IsShuffledDeck(cards) && a in IdSet(cards) && b in IdSet(cards)
    ensures 0 <= a < 16 && 0 <= b < 16
    ensures Partner(a) != a && (b == Partner(a) <==> a == Partner(b))
  {
    var ca :| ca in cards && ca.id == a;
    var cb :| cb in cards && cb.id == b;
  }
}
