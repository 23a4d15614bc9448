/** The player (src/core/player.cpp): a Character with gold, relics and four
    ordered card piles. Cards move between the draw pile, the hand, the
    discard pile and the exhaust pile; no pile operation creates or loses a
    card. The top of the draw pile is its last element. */
module Players {
  import opened Basics
  import opened Characters
  import opened Cards
  import opened Relics

  datatype PlayerClass = Ironclad | Silent | Defect | Watcher | Custom

  /** The class name a card's class restriction is compared with. */
  function ClassString(c: PlayerClass): string {
    match c
    case Ironclad => "IRONCLAD"
    case Silent => "SILENT"
    case Defect => "DEFECT"
    case Watcher => "WATCHER"
    case Custom => "CUSTOM"
  }

  /** A card restricted to one class's name is usable by that class and by no other;
      an unrestricted or "ALL" card is usable by every class. */
  lemma CanUseByClass(card: Card, owner: PlayerClass, other: PlayerClass)
    ensures card.classRestriction == "" || card.classRestriction == "ALL" ==>
              card.CanUse(Some(ClassString(other)))
    ensures card.classRestriction == ClassString(owner) ==>
              (card.CanUse(Some(ClassString(other))) <==> other == owner)
    ensures !card.CanUse(None)
  {
  }

  datatype Piles = Piles(draw: seq<Card>, hand: seq<Card>, discard: seq<Card>, exhaust: seq<Card>)

  /** Every card the player owns, wherever it lies. */
  function Deck(p: Piles): multiset<Card> {
    multiset(p.draw) + multiset(p.hand) + multiset(p.discard) + multiset(p.exhaust)
  }

  /** Where `addCard` puts a card. */
  datatype Destination = ToDraw | ToDiscard | ToHand | ToExhaust

  /** The destination names `addCard` understands; any other name means the draw pile. */
  function DestinationOf(name: string): (d: Destination)
    ensures name == "discard" <==> d == ToDiscard
    ensures name == "hand" <==> d == ToHand
    ensures name == "exhaust" <==> d == ToExhaust
  {
    if name == "draw" then ToDraw
    else if name == "discard" then ToDiscard
    else if name == "hand" then ToHand
    else if name == "exhaust" then ToExhaust
    else ToDraw
  }

  /** `addCard` once the card is known to be usable: the discard and exhaust piles first
      take the card out of the hand if it is there. */
  function CardAdded(p: Piles, card: Card, d: Destination): (r: Piles)
    ensures r.draw == p.draw + (if d == ToDraw then [card] else [])
    ensures r.discard == p.discard + (if d == ToDiscard then [card] else [])
    ensures r.exhaust == p.exhaust + (if d == ToExhaust then [card] else [])
    ensures d == ToHand ==> r.hand == p.hand + [card]
    ensures d == ToDraw ==> r.hand == p.hand
    ensures (d == ToDiscard || d == ToExhaust) ==> multiset(r.hand) == multiset(p.hand) - multiset{card}
  {
    match d
    case ToDraw => p.(draw := p.draw + [card])
    case ToDiscard => p.(hand := Without(p.hand, card), discard := p.discard + [card])
    case ToHand => p.(hand := p.hand + [card])
    case ToExhaust => p.(hand := Without(p.hand, card), exhaust := p.exhaust + [card])
  }

  /** The hand with the first occurrence of `card` erased, if there is one. */
  function Without(hand: seq<Card>, card: Card): (r: seq<Card>)
    ensures multiset(r) == multiset(hand) - multiset{card}
  {
    var i := FirstIndex(hand, card);
    if i >= 0 then RemoveAt(hand, i) else hand
  }

  /** Cards that only move between the hand and the discard pile stay in the deck. */
  lemma HandDiscardMove(p: Piles, q: Piles)
    requires q.draw == p.draw && q.exhaust == p.exhaust
    requires multiset(q.hand) + multiset(q.discard) == multiset(p.hand) + multiset(p.discard)
    ensures Deck(q) == Deck(p)
  {
    forall c: Card ensures Deck(q)[c] == Deck(p)[c] {
      assert (multiset(q.hand) + multiset(q.discard))[c] == (multiset(p.hand) + multiset(p.discard))[c];
    }
  }

  /** Adding a card grows the deck by that card, except that a card already in the hand
      and sent to the discard or exhaust pile only moves. */
  lemma CardAddedDeck(p: Piles, card: Card, d: Destination)
    ensures Deck(CardAdded(p, card, d)) ==
            Deck(p) + (if (d == ToDiscard || d == ToExhaust) && card in p.hand
                       then multiset{} else multiset{card})
  {
    match d
    case ToDraw => AppendedToPile(p, card, p.(draw := p.draw + [card]));
    case ToHand => AppendedToPile(p, card, p.(hand := p.hand + [card]));
    case ToDiscard => TakenFromHand(p, card, p.(hand := Without(p.hand, card), discard := p.discard + [card]));
    case ToExhaust => TakenFromHand(p, card, p.(hand := Without(p.hand, card), exhaust := p.exhaust + [card]));
  }

  lemma AppendedToPile(p: Piles, card: Card, q: Piles)
    requires q == p.(draw := p.draw + [card]) || q == p.(hand := p.hand + [card])
    ensures Deck(q) == Deck(p) + multiset{card}
  {
  }

  /** Taking a card out of the hand and appending it to another pile only moves it when it was in the hand. */
  lemma TakenFromHand(p: Piles, card: Card, q: Piles)
    requires q.hand == Without(p.hand, card) && q.draw == p.draw
    requires (q.discard == p.discard + [card] && q.exhaust == p.exhaust) ||
             (q.exhaust == p.exhaust + [card] && q.discard == p.discard)
    ensures Deck(q) == Deck(p) + (if card in p.hand then multiset{} else multiset{card})
  {
    if card in p.hand {
      assert multiset(p.hand) == multiset(q.hand) + multiset{card};
    } else {
      assert multiset(q.hand) == multiset(p.hand);
    }
  }

  /** How many cards `drawCards(count)` draws when the hand has room for `room` more and
      `available` cards lie in the draw and discard piles together. */
  function DrawCount(count: int, room: int, available: int): (n: int)
    requires available >= 0
    ensures 0 <= n <= available
    ensures room > 0 ==> n <= room
    ensures room > 0 && count > 0 && available > 0 ==> n > 0
  {
    if room <= 0 then 0 else Max(0, Min(Min(count, room), available))
  }

  /** The hand, the discard pile and the number moved after discarding by each index in turn,
      every index read against the hand as it is at that moment. */
  datatype Moved = Moved(hand: seq<Card>, pile: seq<Card>, count: nat)

  function DiscardEach(hand: seq<Card>, discard: seq<Card>, idxs: seq<int>): Moved
    decreases |idxs|
  {
    if idxs == [] then Moved(hand, discard, 0)
    else if 0 <= idxs[0] < |hand| then
      var r := DiscardEach(RemoveAt(hand, idxs[0]), discard + [hand[idxs[0]]], idxs[1..]);
      r.(count := r.count + 1)
    else DiscardEach(hand, discard, idxs[1..])
  }

  /** Discarding by indices moves cards from the hand to the discard pile and nothing else. */
  lemma {:induction false} DiscardEachConserves(hand: seq<Card>, discard: seq<Card>, idxs: seq<int>)
    ensures var r := DiscardEach(hand, discard, idxs);
      multiset(r.hand) + multiset(r.pile) == multiset(hand) + multiset(discard) &&
      |r.hand| == |hand| - r.count && |r.pile| == |discard| + r.count && r.pile[..|discard|] == discard
    decreases |idxs|
  {
    if idxs != [] {
      if 0 <= idxs[0] < |hand| {
        var i := idxs[0];
        DiscardEachConserves(RemoveAt(hand, i), discard + [hand[i]], idxs[1..]);
        var r := DiscardEach(RemoveAt(hand, i), discard + [hand[i]], idxs[1..]);
        assert r.pile[..|discard|] == r.pile[..|discard| + 1][..|discard|];
        MovedOne(multiset(r.hand) + multiset(r.pile), multiset(RemoveAt(hand, i)), multiset(hand),
                 multiset(discard), multiset{hand[i]});
        assert multiset(discard + [hand[i]]) == multiset(discard) + multiset{hand[i]};
      } else {
        DiscardEachConserves(hand, discard, idxs[1..]);
      }
    }
  }

  /** Moving one element from one part to the other keeps the total. */
  lemma MovedOne(total: multiset<Card>, rest: multiset<Card>, hand: multiset<Card>,
                 discard: multiset<Card>, x: multiset<Card>)
    requires total == rest + (discard + x) && rest + x == hand
    ensures total == hand + discard
  {
  }

  predicate StrictlyDescending(s: seq<int>) {
    forall i, j :: 0 <= i < j < |s| ==> s[i] > s[j]
  }

  function Picked(hand: seq<Card>, idxs: seq<int>): seq<Card>
    requires forall k :: 0 <= k < |idxs| ==> 0 <= idxs[k] < |hand|
  {
    seq(|idxs|, k requires 0 <= k < |idxs| => hand[idxs[k]])
  }

  /** With distinct valid indices, handled largest first, exactly the cards at those
      positions of the original hand reach the discard pile, in that order. */
  lemma {:induction false} DiscardEachDescending(hand: seq<Card>, discard: seq<Card>, idxs: seq<int>)
    requires StrictlyDescending(idxs)
    requires forall k :: 0 <= k < |idxs| ==> 0 <= idxs[k] < |hand|
    ensures var r := DiscardEach(hand, discard, idxs);
      r.count == |idxs| && r.pile == discard + Picked(hand, idxs)
    decreases |idxs|
  {
    if idxs != [] {
      var i := idxs[0];
      var h' := RemoveAt(hand, i);
      assert forall k :: 1 <= k < |idxs| ==> idxs[k] < i;
      DiscardEachDescending(h', discard + [hand[i]], idxs[1..]);
      assert Picked(h', idxs[1..]) == Picked(hand, idxs)[1..];
    }
  }

  /** A repeated index is not deduplicated: [i, i] discards the card at i and then the
      card that slid into position i, the one originally at i + 1. */
  lemma RepeatedIndexTakesNeighbour(hand: seq<Card>, discard: seq<Card>, i: int)
    requires 0 <= i && i + 1 < |hand|
    ensures DiscardEach(hand, discard, [i, i]).pile == discard + [hand[i], hand[i + 1]]
  {
    var h1 := RemoveAt(hand, i);
    assert h1[i] == hand[i + 1];
    assert [i, i][1..] == [i];
    assert DiscardEach(hand, discard, [i, i]) == DiscardEach(h1, discard + [hand[i]], [i]).(count := 2);
    assert [i][1..] == [];
    assert DiscardEach(h1, discard + [hand[i]], [i]).pile == discard + [hand[i]] + [h1[i]];
  }

  predicate NonIncreasing(s: seq<int>) {
    forall i, j :: 0 <= i < j < |s| ==> s[i] >= s[j]
  }

  function InsertDescending(x: int, s: seq<int>): (r: seq<int>)
    requires NonIncreasing(s)
    ensures NonIncreasing(r)
    ensures multiset(r) == multiset(s) + multiset{x}
    ensures |r| == |s| + 1 && (r[0] == x || (s != [] && r[0] == s[0]))
  {
    if s == [] || x >= s[0] then [x] + s
    else
      assert s == [s[0]] + s[1..];
      [s[0]] + InsertDescending(x, s[1..])
  }

  /** std::sort with std::greater: the same indices, largest first. */
  function SortDescending(s: seq<int>): (r: seq<int>)
    ensures NonIncreasing(r)
    ensures multiset(r) == multiset(s)
  {
    if s == [] then []
    else
      assert s == [s[0]] + s[1..];
      InsertDescending(s[0], SortDescending(s[1..]))
  }

  /** `discardCard(i)` on an index inside the hand: hand[i] moves to the end of the discard pile. */
  function DiscardedAt(p: Piles, i: nat): (r: Piles)
    requires i < |p.hand|
    ensures r.draw == p.draw && r.exhaust == p.exhaust
    ensures multiset(r.hand) + multiset{p.hand[i]} == multiset(p.hand)
    ensures |r.discard| == |p.discard| + 1 && r.discard[|p.discard|] == p.hand[i] && r.discard[..|p.discard|] == p.discard
  {
    p.(hand := RemoveAt(p.hand, i), discard := p.discard + [p.hand[i]])
  }

  /** Discarding the first card of the hand. */
  lemma DiscardedFirst(p: Piles)
    requires p.hand != []
    ensures DiscardedAt(p, 0).hand == p.hand[1..] && DiscardedAt(p, 0).discard == p.discard + [p.hand[0]]
  {
  }

  /** `exhaustCard(i)` on an index inside the hand: hand[i] moves to the end of the exhaust pile. */
  function ExhaustedAt(p: Piles, i: nat): (r: Piles)
    requires i < |p.hand|
    ensures r.draw == p.draw && r.discard == p.discard
    ensures multiset(r.hand) + multiset{p.hand[i]} == multiset(p.hand)
    ensures |r.exhaust| == |p.exhaust| + 1 && r.exhaust[|p.exhaust|] == p.hand[i] && r.exhaust[..|p.exhaust|] == p.exhaust
  {
    p.(hand := RemoveAt(p.hand, i), exhaust := p.exhaust + [p.hand[i]])
  }

  /** `discardHand`: the whole hand, in order, onto the end of the discard pile. */
  function HandDiscarded(p: Piles): (r: Piles)
    ensures r.hand == [] && r.draw == p.draw && r.exhaust == p.exhaust
    ensures |r.discard| == |p.discard| + |p.hand|
    ensures r.discard[..|p.discard|] == p.discard && r.discard[|p.discard|..] == p.hand
  {
    p.(hand := [], discard := p.discard + p.hand)
  }

  /** `discardCards`: the indices sorted largest first, each applied to the hand of the moment. */
  function IndicesDiscarded(p: Piles, idxs: seq<int>): Piles {
    var r := DiscardEach(p.hand, p.discard, SortDescending(idxs));
    p.(hand := r.hand, discard := r.pile)
  }

  /** `beginCombat` before drawing: the discard pile, then the exhaust pile, go on top of the draw pile. */
  function Gathered(p: Piles): (r: Piles)
    ensures r.discard == [] && r.exhaust == [] && r.hand == p.hand
    ensures |r.draw| == |p.draw| + |p.discard| + |p.exhaust| && r.draw[..|p.draw|] == p.draw
    ensures r.draw[|r.draw| - |p.exhaust|..] == p.exhaust
  {
    p.(draw := p.draw + p.discard + p.exhaust, discard := [], exhaust := [])
  }

  lemma DiscardedAtConserves(p: Piles, i: nat)
    requires i < |p.hand|
    ensures Deck(DiscardedAt(p, i)) == Deck(p)
    ensures |DiscardedAt(p, i).hand| == |p.hand| - 1
  {
  }

  lemma ExhaustedAtConserves(p: Piles, i: nat)
    requires i < |p.hand|
    ensures Deck(ExhaustedAt(p, i)) == Deck(p)
    ensures |ExhaustedAt(p, i).hand| == |p.hand| - 1
  {
  }

  lemma HandDiscardedConserves(p: Piles)
    ensures Deck(HandDiscarded(p)) == Deck(p)
  {
  }

  /** Discarding by indices keeps every card, and the count returned is exactly how far the hand shrank. */
  lemma IndicesDiscardedConserves(p: Piles, idxs: seq<int>)
    ensures Deck(IndicesDiscarded(p, idxs)) == Deck(p)
    ensures |IndicesDiscarded(p, idxs).hand| == |p.hand| - DiscardEach(p.hand, p.discard, SortDescending(idxs)).count
    ensures idxs == [] ==> IndicesDiscarded(p, idxs) == p
  {
    var r := DiscardEach(p.hand, p.discard, SortDescending(idxs));
    DiscardEachConserves(p.hand, p.discard, SortDescending(idxs));
    var q := IndicesDiscarded(p, idxs);
    HandDiscardMove(p, q);
  }

  lemma GatheredConserves(p: Piles)
    ensures Deck(Gathered(p)) == Deck(p)
    ensures Gathered(p).hand == p.hand
  {
  }

  /** What `drawCards` keeps while it draws: `taken` are the cards moved to the hand so far.
      While no more than the old draw pile has been taken, they are its top read downwards;
      beyond that the one refill has happened: the whole old draw pile was taken, the rest
      comes from the old discard pile, and the discard pile is empty. */
  ghost function DrawInv(draw0: seq<Card>, discard0: seq<Card>, taken: seq<Card>,
                          draw: seq<Card>, discard: seq<Card>): bool
  {
    |taken| + |draw| + |discard| == |draw0| + |discard0| &&
    (|taken| <= |draw0| ==>
       draw == draw0[..|draw0| - |taken|] && taken == Reversed(draw0[|draw0| - |taken|..]) &&
       discard == discard0) &&
    (|taken| > |draw0| ==>
       discard == [] && taken[..|draw0|] == Reversed(draw0) &&
       multiset(taken[|draw0|..]) + multiset(draw) == multiset(discard0))
  }

  /** One draw: the top card `x` of a non-empty draw pile, or, when the draw pile is empty
      (`wasEmpty`), some card of the discard pile after all of it was shuffled into the draw pile. */
  ghost predicate Drew(draw: seq<Card>, discard: seq<Card>, x: Card,
                       draw': seq<Card>, discard': seq<Card>, wasEmpty: bool)
  {
    if !wasEmpty then
      draw != [] && x == draw[|draw| - 1] && draw' == draw[..|draw| - 1] && discard' == discard
    else
      draw == [] && discard' == [] && multiset(draw') + multiset{x} == multiset(discard)
  }

  lemma DrawInvStep(draw0: seq<Card>, discard0: seq<Card>, taken: seq<Card>,
                    draw: seq<Card>, discard: seq<Card>,
                    x: Card, draw': seq<Card>, discard': seq<Card>, wasEmpty: bool)
    requires draw != [] || discard != []
    requires DrawInv(draw0, discard0, taken, draw, discard)
    requires Drew(draw, discard, x, draw', discard', wasEmpty)
    ensures DrawInv(draw0, discard0, taken + [x], draw', discard')
  {
    var refilled := |taken| > |draw0|;
    var t := taken + [x];
    var n := |draw0|;
    if !wasEmpty {
      assert |draw'| == |draw| - 1;
      if !refilled {
        var s := draw0[n - |t|..];
        assert s[1..] == draw0[n - |taken|..];
        assert s[0] == x;
        assert draw' == draw0[..n - |t|];
        assert t == Reversed(s[1..]) + [s[0]];
      } else {
        assert t[..n] == taken[..n];
        assert t[n..] == taken[n..] + [x];
        assert draw == draw' + [x];
      }
    } else {
      assert !refilled;
      assert |multiset(draw')| + 1 == |multiset(discard)|;
      assert taken == Reversed(draw0);
      assert t[..n] == taken;
      assert t[n..] == [x];
    }
  }

  /** Drawing only moves cards from the draw and discard piles to the end of the hand. */
  lemma DrawnCardsConserved(draw0: seq<Card>, discard0: seq<Card>, taken: seq<Card>,
                            draw: seq<Card>, discard: seq<Card>)
    requires DrawInv(draw0, discard0, taken, draw, discard)
    ensures multiset(taken) + multiset(draw) + multiset(discard) == multiset(draw0) + multiset(discard0)
  {
    if |taken| <= |draw0| {
      var k := |draw0| - |taken|;
      MultisetOfSplit(draw0, k);
      ReversedMultiset(draw0[k..]);
    } else {
      MultisetOfSplit(taken, |draw0|);
      ReversedMultiset(draw0);
    }
  }

  /** With an empty discard pile there is no refill: the cards drawn are the top of the draw pile. */
  lemma DrawnFromOnePile(draw0: seq<Card>, taken: seq<Card>, draw: seq<Card>, discard: seq<Card>)
    requires DrawInv(draw0, [], taken, draw, discard)
    ensures |taken| <= |draw0| && draw == draw0[..|draw0| - |taken|] && discard == []
    ensures taken == Reversed(draw0[|draw0| - |taken|..])
  {
  }

  /** The loop of `drawCards` stops after `min(count, room)` cards or when both piles are empty:
      it drew `DrawCount` cards and the deck is as it was. */
  lemma DrawDone(p: Piles, q: Piles, taken: seq<Card>, count: int, room: int, drawn: int)
    requires DrawInv(p.draw, p.discard, taken, q.draw, q.discard)
    requires q.hand == p.hand + taken && q.exhaust == p.exhaust
    requires room > 0 && |taken| == drawn && 0 <= drawn <= Max(0, Min(count, room))
    requires drawn >= Min(count, room) || (q.draw == [] && q.discard == [])
    ensures drawn == DrawCount(count, room, |p.draw| + |p.discard|)
    ensures Deck(q) == Deck(p)
  {
    DrawnCardsConserved(p.draw, p.discard, taken, q.draw, q.discard);
    DrawKeepsDeck(p, q, taken);
  }

  /** Cards appended to the hand that came out of the draw and discard piles leave the deck as it was. */
  lemma DrawKeepsDeck(p: Piles, q: Piles, taken: seq<Card>)
    requires q.hand == p.hand + taken && q.exhaust == p.exhaust
    requires multiset(taken) + multiset(q.draw) + multiset(q.discard) == multiset(p.draw) + multiset(p.discard)
    ensures Deck(q) == Deck(p)
  {
    forall c: Card ensures Deck(q)[c] == Deck(p)[c] {
      assert multiset(q.hand)[c] == multiset(p.hand)[c] + multiset(taken)[c];
      assert (multiset(taken) + multiset(q.draw) + multiset(q.discard))[c] ==
             (multiset(p.draw) + multiset(p.discard))[c];
    }
  }

  /** `increaseMaxHealth` on a character state: the maximum moves by `amount` (never below 1),
      health is cut to the new maximum, and a resulting health of exactly 11 becomes 1. */
  function MaxHealthRaised(s: CharState, amount: int): (r: CharState)
    ensures r == s.(maxHealth := r.maxHealth, health := r.health)
    ensures r.maxHealth == Max(1, s.maxHealth + amount)
    ensures r.health <= s.health
    ensures s.health >= 0 ==> 0 <= r.health <= r.maxHealth
  {
    var m := Max(1, s.maxHealth + amount);
    var h := Min(s.health, m);
    s.(maxHealth := m, health := if h == 11 then Min(1, m) else h)
  }

  /** The player's character after `startTurn`: the character's own turn start, then the base
      energy added to what is left (clamped at 0 by setEnergy). */
  function PlayerTurnStarted(s: CharState): (r: CharState)
    ensures r.(energy := s.energy) == TurnStarted(s)
    ensures s.energy >= 0 && s.baseEnergy >= 0 ==> r.energy == s.energy + s.baseEnergy
  {
    var t := TurnStarted(s);
    t.(energy := Max(0, t.energy + t.baseEnergy))
  }

  class Player {
    const ch: Character
    const playerClass: PlayerClass
    var gold: int
    const initialHandSize: int
    var drawPile: seq<Card>
    var hand: seq<Card>
    var discardPile: seq<Card>
    var exhaustPile: seq<Card>
    var relics: seq<Relic>

    ghost function AllPiles(): Piles
      reads this
    {
      Piles(drawPile, hand, discardPile, exhaustPile)
    }

    ghost predicate Valid()
      reads ch
    {
      ch.Valid()
    }

    constructor (playerClass: PlayerClass, maxHealth: int, baseEnergy: int, initialHandSize: int)
      ensures Valid() && fresh(ch)
      ensures ch.State() == CharState(maxHealth, maxHealth, 0, baseEnergy, 0, map[])
      ensures this.playerClass == playerClass && this.initialHandSize == initialHandSize
      ensures gold == 0 && AllPiles() == Piles([], [], [], []) && relics == []
    {
      ch := new Character(maxHealth, baseEnergy);
      this.playerClass := playerClass;
      gold := 0;
      this.initialHandSize := initialHandSize;
      drawPile, hand, discardPile, exhaustPile := [], [], [], [];
      relics := [];
    }

    method AddGold(amount: int)
      modifies this`gold
      ensures gold == old(gold) + Max(0, amount)
    {
      if amount > 0 {
        gold := gold + amount;
      }
    }

    /** Spending is all or nothing; a non-positive amount always succeeds and costs nothing. */
    method SpendGold(amount: int) returns (ok: bool)
      modifies this`gold
      ensures ok <==> amount <= 0 || old(gold) >= amount
      ensures gold == (if amount > 0 && ok then old(gold) - amount else old(gold))
    {
      if amount <= 0 {
        return true;
      }
      if gold >= amount {
        gold := gold - amount;
        return true;
      }
      return false;
    }

    /** A card the player's class may not use is refused. */
    method AddCard(card: Card?, destination: string)
      modifies this`drawPile, this`hand, this`discardPile, this`exhaustPile
      ensures AllPiles() == (if card == null || !card.CanUse(Some(ClassString(playerClass))) then old(AllPiles())
                          else CardAdded(old(AllPiles()), card, DestinationOf(destination)))
    {
      if card == null {
        return;
      }
      if !card.CanUse(Some(ClassString(playerClass))) {
        return;
      }
      PutCard(card, DestinationOf(destination));
    }

    /** Places a usable card at its destination. */
    method PutCard(card: Card, d: Destination)
      modifies this`drawPile, this`hand, this`discardPile, this`exhaustPile
      ensures AllPiles() == CardAdded(old(AllPiles()), card, d)
    {
      ghost var p := AllPiles();
      match d {
        case ToDraw =>
          drawPile := drawPile + [card];
          assert AllPiles() == p.(draw := p.draw + [card]);
        case ToDiscard =>
          RemoveFromHand(card);
          discardPile := discardPile + [card];
          assert AllPiles() == p.(hand := Without(p.hand, card), discard := p.discard + [card]);
        case ToHand =>
          hand := hand + [card];
          assert AllPiles() == p.(hand := p.hand + [card]);
        case ToExhaust =>
          RemoveFromHand(card);
          exhaustPile := exhaustPile + [card];
          assert AllPiles() == p.(hand := Without(p.hand, card), exhaust := p.exhaust + [card]);
      }
    }

    /** Erases the first occurrence of `card` from the hand, if it is there. */
    method RemoveFromHand(card: Card)
      modifies this`hand
      ensures hand == Without(old(hand), card)
    {
      var i := FirstIndex(hand, card);
      if i >= 0 {
        hand := RemoveAt(hand, i);
      }
    }

    /** `addCardToDeck`: a usable card goes to the draw pile. */
    method AddCardToDeck(card: Card?)
      modifies this`drawPile, this`hand, this`discardPile, this`exhaustPile
      ensures card != null && card.CanUse(Some(ClassString(playerClass))) ==>
                AllPiles() == old(AllPiles()).(draw := old(drawPile) + [card])
      ensures card == null || !card.CanUse(Some(ClassString(playerClass))) ==> AllPiles() == old(AllPiles())
    {
      if card == null {
        return;
      }
      AddCard(card, "draw");
    }

    method AddRelic(relic: Relic?)
      modifies this`relics
      ensures relics == (if relic == null then old(relics) else old(relics) + [relic])
    {
      if relic != null {
        relics := relics + [relic];
        relic.OnObtain(ch);
      }
    }

    /** The draw pile becomes some ordering of the cards it held (the clock-seeded shuffle). */
    method ShuffleDrawPile()
      modifies this`drawPile
      ensures multiset(drawPile) == multiset(old(drawPile)) && |drawPile| == |old(drawPile)|
    {
      var shuffled :| multiset(shuffled) == multiset(drawPile);
      drawPile := shuffled;
    }

    method ShuffleDiscardIntoDraw()
      modifies this`drawPile, this`discardPile
      ensures multiset(drawPile) == multiset(old(drawPile)) + multiset(old(discardPile))
      ensures |drawPile| == |old(drawPile)| + |old(discardPile)| && discardPile == []
    {
      drawPile := drawPile + discardPile;
      discardPile := [];
      ShuffleDrawPile();
    }

    /** Draws one card at a time from the top of the draw pile onto the end of the hand,
        never past the hand size, refilling the draw pile from the discard pile when it runs out. */
    method DrawCards(count: int) returns (drawn: int)
      modifies this`drawPile, this`hand, this`discardPile
      ensures drawn == DrawCount(count, initialHandSize - |old(hand)|, |old(drawPile)| + |old(discardPile)|)
      ensures |hand| == |old(hand)| + drawn && hand == old(hand) + hand[|old(hand)|..]
      ensures DrawInv(old(drawPile), old(discardPile), hand[|old(hand)|..], drawPile, discardPile)
      ensures Deck(AllPiles()) == Deck(old(AllPiles()))
    {
      var room := initialHandSize - |hand|;
      if room <= 0 {
        return 0;
      }
      var target := Min(count, room);
      ghost var taken: seq<Card> := [];
      drawn := 0;
      while drawn < target
        invariant 0 <= drawn <= Max(0, target) && |taken| == drawn
        invariant hand == old(hand) + taken
        invariant DrawInv(old(drawPile), old(discardPile), taken, drawPile, discardPile)
        decreases target - drawn
      {
        if drawPile == [] && discardPile == [] {
          break;
        }
        ghost var draw, discard := drawPile, discardPile;
        var x, wasEmpty := DrawOne();
        DrawInvStep(old(drawPile), old(discardPile), taken, draw, discard, x, drawPile, discardPile, wasEmpty);
        taken := taken + [x];
        drawn := drawn + 1;
      }
      assert hand[|old(hand)|..] == taken;
      DrawDone(old(AllPiles()), AllPiles(), taken, count, room, drawn);
    }

    /** One step of `drawCards`: refill from the discard pile if the draw pile is empty, then move the top card to the hand. */
    method DrawOne() returns (x: Card, wasEmpty: bool)
      requires drawPile != [] || discardPile != []
      modifies this`drawPile, this`hand, this`discardPile
      ensures Drew(old(drawPile), old(discardPile), x, drawPile, discardPile, wasEmpty)
      ensures hand == old(hand) + [x]
    {
      wasEmpty := drawPile == [];
      if wasEmpty {
        ShuffleDiscardIntoDraw();
      }
      x := drawPile[|drawPile| - 1];
      hand := hand + [x];
      assert drawPile == drawPile[..|drawPile| - 1] + [x];
      drawPile := drawPile[..|drawPile| - 1];
    }

    /** Moves hand[index] to the end of the discard pile; an index outside the hand changes nothing. */
    method DiscardCard(index: int) returns (ok: bool)
      modifies this`hand, this`discardPile
      ensures ok <==> 0 <= index < |old(hand)|
      ensures ok ==> AllPiles() == DiscardedAt(old(AllPiles()), index)
      ensures !ok ==> AllPiles() == old(AllPiles())
    {
      if index < 0 || index >= |hand| {
        return false;
      }
      var card := hand[index];
      hand := RemoveAt(hand, index);
      discardPile := discardPile + [card];
      return true;
    }

    /** Moves hand[index] to the end of the exhaust pile; an index outside the hand changes nothing. */
    method ExhaustCard(index: int) returns (ok: bool)
      modifies this`hand, this`exhaustPile
      ensures ok <==> 0 <= index < |old(hand)|
      ensures ok ==> AllPiles() == ExhaustedAt(old(AllPiles()), index)
      ensures !ok ==> AllPiles() == old(AllPiles())
    {
      if index < 0 || index >= |hand| {
        return false;
      }
      exhaustPile := exhaustPile + [hand[index]];
      hand := RemoveAt(hand, index);
      return true;
    }

    /** Discards by a list of indices, largest index first; invalid indices are skipped
        and the result is the number of cards moved. */
    method DiscardCards(indices: seq<int>) returns (discarded: int)
      modifies this`hand, this`discardPile
      ensures AllPiles() == IndicesDiscarded(old(AllPiles()), indices)
      ensures discarded == DiscardEach(old(hand), old(discardPile), SortDescending(indices)).count
    {
      if indices == [] {
        return 0;
      }
      discarded := DiscardInOrder(SortDescending(indices));
    }

    /** Discards by each index in the order given, skipping those outside the hand of the moment. */
    method DiscardInOrder(idxs: seq<int>) returns (discarded: int)
      modifies this`hand, this`discardPile
      ensures var all := DiscardEach(old(hand), old(discardPile), idxs);
        hand == all.hand && discardPile == all.pile && discarded == all.count
    {
      discarded := 0;
      for i := 0 to |idxs|
        invariant var r := DiscardEach(hand, discardPile, idxs[i..]);
          var all := DiscardEach(old(hand), old(discardPile), idxs);
          r.hand == all.hand && r.pile == all.pile && r.count + discarded == all.count
      {
        var index := idxs[i];
        assert idxs[i..][1..] == idxs[i + 1..];
        if 0 <= index < |hand| {
          discardPile := discardPile + [hand[index]];
          hand := RemoveAt(hand, index);
          discarded := discarded + 1;
        }
      }
      assert idxs[|idxs|..] == [];
    }

    /** Empties the hand onto the end of the discard pile, keeping the hand's order. */
    method DiscardHand() returns (ok: bool)
      modifies this`hand, this`discardPile
      ensures ok
      ensures AllPiles() == HandDiscarded(old(AllPiles()))
    {
      if hand == [] {
        assert old(discardPile) + old(hand) == old(discardPile);
        return true;
      }
      ghost var h0, d0 := hand, discardPile;
      ghost var k := 0;
      while hand != []
        invariant 0 <= k <= |h0|
        invariant hand == h0[k..]
        invariant discardPile == d0 + h0[..k]
        decreases |hand|
      {
        ghost var p := AllPiles();
        var _ := DiscardCard(0);
        DiscardedFirst(p);
        assert h0[..k + 1] == h0[..k] + [h0[k]];
        k := k + 1;
      }
      assert h0[..k] == h0;
      return true;
    }

    /** Combat setup: energy to base, block cleared, every card outside the hand back in the
        draw pile (discards, then exhausted cards, on top), an optional shuffle, then a full hand. */
    method BeginCombat(shuffleDeck: bool)
      requires Valid()
      modifies ch, this`drawPile, this`hand, this`discardPile, this`exhaustPile
      ensures Valid()
      ensures ch.State() == old(ch.State()).(energy := ch.baseEnergy, block := 0)
      ensures discardPile == [] && exhaustPile == []
      ensures var pool := old(drawPile) + old(discardPile) + old(exhaustPile);
        var n := DrawCount(initialHandSize, initialHandSize - |old(hand)|, |pool|);
        |hand| == |old(hand)| + n && hand == old(hand) + hand[|old(hand)|..]
      ensures !shuffleDeck ==> DrawInv(old(drawPile) + old(discardPile) + old(exhaustPile), [],
                                       hand[|old(hand)|..], drawPile, discardPile)
      ensures Deck(AllPiles()) == Deck(old(AllPiles()))
    {
      ch.ResetEnergy();
      ch.ResetBlock();
      OpeningHand(shuffleDeck);
      RelicsOnCombatStart();
    }

    /** The pile half of `beginCombat`: everything outside the hand is gathered into the draw
        pile, optionally shuffled, and the hand is filled. Unshuffled, the new cards are the top
        of the gathered pile read downwards. */
    method OpeningHand(shuffleDeck: bool)
      modifies this`drawPile, this`hand, this`discardPile, this`exhaustPile
      ensures discardPile == [] && exhaustPile == []
      ensures var pool := old(drawPile) + old(discardPile) + old(exhaustPile);
        var n := DrawCount(initialHandSize, initialHandSize - |old(hand)|, |pool|);
        |hand| == |old(hand)| + n && hand == old(hand) + hand[|old(hand)|..]
      ensures !shuffleDeck ==> DrawInv(old(drawPile) + old(discardPile) + old(exhaustPile), [],
                                       hand[|old(hand)|..], drawPile, discardPile)
      ensures Deck(AllPiles()) == Deck(old(AllPiles()))
    {
      ghost var pool := drawPile + discardPile + exhaustPile;
      GatherAndShuffle(shuffleDeck);
      assert |drawPile| == |pool| && hand == old(hand);
      var drawn := DrawCards(initialHandSize);
    }

    /** Everything outside the hand goes into the draw pile, which is then optionally shuffled. */
    method GatherAndShuffle(shuffleDeck: bool)
      modifies this`drawPile, this`discardPile, this`exhaustPile
      ensures discardPile == [] && exhaustPile == []
      ensures multiset(drawPile) == multiset(old(drawPile) + old(discardPile) + old(exhaustPile))
      ensures |drawPile| == |old(drawPile) + old(discardPile) + old(exhaustPile)|
      ensures !shuffleDeck ==> drawPile == old(drawPile) + old(discardPile) + old(exhaustPile)
      ensures Deck(AllPiles()) == Deck(old(AllPiles()))
    {
      GatherPiles();
      if shuffleDeck {
        ShuffleDrawPile();
      }
    }

    /** The discard pile and then the exhaust pile are appended to the draw pile and emptied. */
    method GatherPiles()
      modifies this`drawPile, this`discardPile, this`exhaustPile
      ensures AllPiles() == Gathered(old(AllPiles()))
      ensures Deck(AllPiles()) == Deck(old(AllPiles()))
    {
      drawPile := drawPile + discardPile;
      drawPile := drawPile + exhaustPile;
      discardPile := [];
      exhaustPile := [];
      GatheredConserves(old(AllPiles()));
    }

    /** Turn start: poison and the other character rules, then base energy is ADDED to what is
        left, the old hand is discarded and a fresh hand is drawn. */
    method StartTurn()
      requires Valid()
      modifies ch, this`drawPile, this`hand, this`discardPile
      ensures Valid()
      ensures ch.State() == PlayerTurnStarted(old(ch.State()))
      ensures |hand| == DrawCount(initialHandSize, initialHandSize,
                                  |old(drawPile)| + |old(discardPile)| + |old(hand)|)
      ensures DrawInv(old(drawPile), old(discardPile) + old(hand), hand, drawPile, discardPile)
      ensures Deck(AllPiles()) == Deck(old(AllPiles()))
    {
      ch.StartTurn();
      ch.SetEnergy(ch.energy + ch.baseEnergy);
      NewHand();
      RelicsOnTurnStart();
    }

    /** The pile half of `startTurn`: a non-empty hand is discarded, then a full hand is drawn. */
    method NewHand()
      modifies this`drawPile, this`hand, this`discardPile
      ensures |hand| == DrawCount(initialHandSize, initialHandSize,
                                  |old(drawPile)| + |old(discardPile)| + |old(hand)|)
      ensures DrawInv(old(drawPile), old(discardPile) + old(hand), hand, drawPile, discardPile)
      ensures Deck(AllPiles()) == Deck(old(AllPiles()))
    {
      if hand != [] {
        var _ := DiscardHand();
        HandDiscardedConserves(old(AllPiles()));
      } else {
        assert old(discardPile) + old(hand) == discardPile;
      }
      ghost var available := |drawPile| + |discardPile|;
      assert hand == [] && available == |old(drawPile)| + |old(discardPile)| + |old(hand)|;
      var drawn := DrawCards(initialHandSize);
      assert hand[0..] == hand;
    }

    /** Turn end: temporary strength wears off and the whole hand goes to the discard pile. */
    method EndTurn()
      requires Valid()
      modifies ch, this`hand, this`discardPile
      ensures Valid()
      ensures ch.State() == TurnEnded(old(ch.State()))
      ensures hand == [] && discardPile == old(discardPile) + old(hand)
      ensures Deck(AllPiles()) == Deck(old(AllPiles()))
    {
      ch.EndTurn();
      var _ := DiscardHand();
      RelicsOnTurnEnd();
      assert multiset(discardPile) == multiset(old(discardPile)) + multiset(old(hand));
    }

    /** The relic hooks run at combat start and at each turn boundary; none of them changes anything. */
    method RelicsOnCombatStart()
      ensures ch.State() == old(ch.State()) && AllPiles() == old(AllPiles())
    {
      for i := 0 to |relics| {
        relics[i].OnCombatStart(ch);
      }
    }

    method RelicsOnTurnStart()
      ensures ch.State() == old(ch.State()) && AllPiles() == old(AllPiles())
    {
      for i := 0 to |relics| {
        relics[i].OnTurnStart(ch);
      }
    }

    method RelicsOnTurnEnd()
      ensures ch.State() == old(ch.State()) && AllPiles() == old(AllPiles())
    {
      for i := 0 to |relics| {
        relics[i].OnTurnEnd(ch);
      }
    }

    /** Combat end: each relic's end-of-combat hook (Burning Blood heals 6 per copy), then
        block and energy back to 0. */
    method EndCombat()
      requires Valid()
      modifies ch
      ensures Valid()
      ensures ch.State() == HealedTimes(old(ch.State()), BurningBloodCount(relics)).(block := 0, energy := 0)
    {
      RelicsOnCombatEnd();
      ch.ResetBlock();
      ch.SetEnergy(0);
    }

    /** Every relic's end-of-combat hook, for a won combat, in list order. */
    method RelicsOnCombatEnd()
      requires Valid()
      modifies ch
      ensures Valid()
      ensures ch.State() == HealedTimes(old(ch.State()), BurningBloodCount(relics))
    {
      for i := 0 to |relics|
        invariant Valid()
        invariant ch.State() == HealedTimes(old(ch.State()), BurningBloodCount(relics[..i]))
      {
        assert relics[..i + 1] == relics[..i] + [relics[i]];
        BurningBloodCountSnoc(relics[..i], relics[i]);
        relics[i].OnCombatEnd(ch, true);
      }
      assert relics[..|relics|] == relics;
    }

    /** Raises the maximum, keeping the source's literal rule that a resulting health
        of exactly 11 is set to 1. */
    method IncreaseMaxHealth(amount: int)
      requires Valid()
      modifies ch
      ensures Valid()
      ensures ch.State() == MaxHealthRaised(old(ch.State()), amount)
    {
      ch.SetMaxHealth(ch.maxHealth + amount);
      if ch.health == 11 {
        ch.SetHealth(1);
      }
    }
  }

  /** How many Burning Blood relics are in the list. */
  function BurningBloodCount(rs: seq<Relic>): nat
    reads set r | r in rs
  {
    if rs == [] then 0
    else BurningBloodCount(rs[..|rs| - 1]) + (if rs[|rs| - 1].id == "burning_blood" then 1 else 0)
  }

  lemma BurningBloodCountSnoc(rs: seq<Relic>, r: Relic)
    ensures BurningBloodCount(rs + [r]) == BurningBloodCount(rs) + (if r.id == "burning_blood" then 1 else 0)
  {
    assert (rs + [r])[..|rs|] == rs;
  }

  /** `n` successive heals by the Burning Blood amount. */
  function HealedTimes(s: CharState, n: nat): (r: CharState)
    ensures r == s.(health := r.health)
    ensures HealthInRange(s) ==> HealthInRange(r)
  {
    if n == 0 then s else Healed(HealedTimes(s, n - 1), BurningBloodHeal)
  }
}
