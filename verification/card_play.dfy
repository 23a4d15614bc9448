/** Playing a card (src/core/card.cpp): whether it may be played, the fixed
    effects of the built-in cards, and the move of a played card out of the
    hand. A combat is given here by its roster of enemies; an absent combat
    is `None`. */
module CardPlay {
  import opened Basics
  import opened Characters
  import opened Cards
  import Enemies
  import opened Players
  import opened Rosters

  /** `canPlay`: a player and a combat are present, the player's energy covers the cost, and
      the target index suits the card's target category. */
  predicate CanPlay(card: Card, player: Player?, targetIndex: int, combat: Option<seq<Enemies.Enemy>>)
    reads card, if player != null then {player.ch} else {}
    reads if combat.Some? then Chars(combat.value) else {}
  {
    player != null && combat.Some? && player.ch.energy >= card.cost &&
    match card.target
    case NoTarget => true
    case SelfTarget => targetIndex < 0 || targetIndex == 0
    case SingleEnemy =>
      0 <= targetIndex < |combat.value| && combat.value[targetIndex].ch.IsAlive()
    case AllEnemies => true
    case SingleAlly => false
    case AllAllies => false
  }

  /** What `canPlay` guarantees and what it ignores. */
  lemma CanPlayRules(card: Card, player: Player?, targetIndex: int, combat: Option<seq<Enemies.Enemy>>)
    ensures player == null || combat.None? ==> !CanPlay(card, player, targetIndex, combat)
    ensures CanPlay(card, player, targetIndex, combat) ==> player.ch.energy >= card.cost
    ensures CanPlay(card, player, targetIndex, combat) && card.NeedsTarget() ==>
              0 <= targetIndex < |combat.value| && combat.value[targetIndex].ch.health > 0
    ensures card.target == SingleAlly || card.target == AllAllies ==> !CanPlay(card, player, targetIndex, combat)
    ensures player != null && combat.Some? && player.ch.energy >= card.cost &&
            (card.target == NoTarget || card.target == AllEnemies) ==>
              forall k :: CanPlay(card, player, k, combat)
  {
  }

  /** The damage of a built-in attack and the block of a built-in skill. */
  function AttackDamage(upgraded: bool): int { if upgraded then 9 else 6 }

  function SkillBlock(upgraded: bool): int { if upgraded then 8 else 5 }

  /** One enemy under an attack on all enemies: only a living one is hit. */
  function Hit(s: CharState, amount: int): CharState {
    if s.health > 0 then Damaged(s, amount) else s
  }

  function HitLiving(foes: seq<CharState>, amount: int): (r: seq<CharState>)
    ensures |r| == |foes| && forall i :: 0 <= i < |foes| ==> r[i] == Hit(foes[i], amount)
  {
    seq(|foes|, i requires 0 <= i < |foes| => Hit(foes[i], amount))
  }

  /** The player's and the enemies' states after an effect, and whether it took. */
  datatype Effect = Effect(ok: bool, self: CharState, foes: seq<CharState>)

  /** `fallbackCardEffect`: an attack at one enemy or at all of them, or a skill on oneself;
      every other card does nothing and fails. */
  function FallbackEffect(kind: CardType, target: CardTarget, upgraded: bool, targetIndex: int,
                          self: CharState, foes: seq<CharState>): (r: Effect)
    ensures r.ok <==> (kind == Attack && (target == AllEnemies || (target == SingleEnemy && 0 <= targetIndex < |foes|)))
                      || (kind == Skill && target == SelfTarget)
    ensures !r.ok ==> r.self == self && r.foes == foes
    ensures r.self == self || (kind == Skill && r.self == BlockAdded(self, SkillBlock(upgraded)))
    ensures |r.foes| == |foes|
    ensures forall i :: 0 <= i < |foes| ==>
              r.foes[i] == foes[i] || (kind == Attack && r.foes[i] == Damaged(foes[i], AttackDamage(upgraded)))
    ensures target == AllEnemies ==> forall i :: 0 <= i < |foes| && foes[i].health <= 0 ==> r.foes[i] == foes[i]
    ensures target == SingleEnemy ==> forall i :: 0 <= i < |foes| && i != targetIndex ==> r.foes[i] == foes[i]
    ensures (forall i :: 0 <= i < |foes| ==> HealthInRange(foes[i])) ==>
              forall i :: 0 <= i < |foes| ==> HealthInRange(r.foes[i])
  {
    if kind == Attack && target == SingleEnemy && 0 <= targetIndex < |foes| then
      Effect(true, self, foes[targetIndex := Damaged(foes[targetIndex], AttackDamage(upgraded))])
    else if kind == Attack && target == AllEnemies then
      Effect(true, self, HitLiving(foes, AttackDamage(upgraded)))
    else if kind == Skill && target == SelfTarget then
      Effect(true, BlockAdded(self, SkillBlock(upgraded)), foes)
    else
      Effect(false, self, foes)
  }

  /** Everything `play` can change: the player's piles and character and the enemies' characters. */
  datatype Table = Table(piles: Piles, self: CharState, foes: seq<CharState>)

  datatype Played = Played(ok: bool, table: Table)

  /** The energy `useEnergy(cost)` leaves: a positive cost is paid, any other costs nothing. */
  function Spent(s: CharState, cost: int): (r: CharState)
    ensures r == s.(energy := r.energy) && r.energy == s.energy - Max(0, cost)
  {
    s.(energy := if cost > 0 then s.energy - cost else s.energy)
  }

  /** `play` once `canPlay` has passed: the energy is spent first, then the rest is `Resolved`. */
  ghost function PlayedFrom(card: Card, targetIndex: int, t: Table): (r: Played)
    reads card
    ensures Deck(r.table.piles) == Deck(t.piles)
    ensures r.table.self.energy == t.self.energy - Max(0, card.cost)
    ensures !r.ok ==> r.table.piles == t.piles
    ensures r.ok ==> card in t.piles.hand
    ensures r.ok ==> r.table.piles.hand == RemoveAt(t.piles.hand, FirstIndex(t.piles.hand, card))
    ensures r.ok && card.cardType == Power ==>
              r.table.piles == t.piles.(hand := r.table.piles.hand, exhaust := t.piles.exhaust + [card])
    ensures r.ok && card.cardType != Power ==>
              r.table.piles == t.piles.(hand := r.table.piles.hand, discard := t.piles.discard + [card])
    ensures card !in t.piles.hand ==> !r.ok && r.table == t.(self := Spent(t.self, card.cost))
  {
    Resolved(card, targetIndex, t.(self := Spent(t.self, card.cost)))
  }

  /** After the energy is spent: a card that is not in the hand stops here; otherwise the
      fallback effect is applied and, when it takes, the card goes from the hand to the exhaust
      pile (a power) or the discard pile (any other card). */
  ghost function Resolved(card: Card, targetIndex: int, t: Table): (r: Played)
    reads card
    ensures Deck(r.table.piles) == Deck(t.piles)
    ensures r.table.self.energy == t.self.energy
  {
    var i := FirstIndex(t.piles.hand, card);
    if i < 0 then Played(false, t)
    else
      var e := FallbackEffect(card.cardType, card.target, card.upgraded, targetIndex, t.self, t.foes);
      if !e.ok then Played(false, Table(t.piles, e.self, e.foes))
      else if card.cardType == Power then
        ExhaustedAtConserves(t.piles, i);
        Played(true, Table(ExhaustedAt(t.piles, i), e.self, e.foes))
      else
        DiscardedAtConserves(t.piles, i);
        Played(true, Table(DiscardedAt(t.piles, i), e.self, e.foes))
  }

  /** `discardCards` with the single index of the played card is `discardCard` at that index. */
  lemma OneIndexDiscarded(p: Piles, i: int)
    requires 0 <= i < |p.hand|
    ensures IndicesDiscarded(p, [i]) == DiscardedAt(p, i)
  {
    assert [i][1..] == [];
    assert SortDescending([i]) == InsertDescending(i, SortDescending([]));
    var r := DiscardEach(RemoveAt(p.hand, i), p.discard + [p.hand[i]], []);
    assert DiscardEach(p.hand, p.discard, [i]) == r.(count := r.count + 1);
  }

  /** The search of the hand for the card being played. */
  method FindCard(hand: seq<Card>, card: Card) returns (i: int)
    ensures i == FirstIndex(hand, card)
  {
    i := 0;
    while i < |hand|
      invariant 0 <= i <= |hand|
      invariant card !in hand[..i]
    {
      if hand[i] == card {
        return i;
      }
      assert hand[..i + 1] == hand[..i] + [hand[i]];
      i := i + 1;
    }
    assert hand[..i] == hand;
    return -1;
  }

  /** Every living enemy takes `amount` damage, in roster order. */
  method HitAllLiving(roster: seq<Enemies.Enemy>, amount: int)
    requires Fit(roster) && Distinct(roster)
    modifies Chars(roster)
    ensures Fit(roster)
    ensures Foes(roster) == HitLiving(old(Foes(roster)), amount)
  {
    for i := 0 to |roster|
      invariant Fit(roster)
      invariant forall k :: 0 <= k < i ==> roster[k].ch.State() == Hit(old(roster[k].ch.State()), amount)
      invariant forall k :: i <= k < |roster| ==> roster[k].ch.State() == old(roster[k].ch.State())
    {
      if roster[i].ch.IsAlive() {
        var _ := roster[i].ch.TakeDamage(amount);
      }
    }
  }

  /** `fallbackCardEffect` against the player's character `self` and the roster. */
  method ApplyFallback(card: Card, self: Character, targetIndex: int, roster: seq<Enemies.Enemy>) returns (ok: bool)
    requires self.Valid() && Fit(roster) && Distinct(roster) && Apart(self, roster)
    modifies self, Chars(roster)
    ensures self.Valid() && Fit(roster)
    ensures Effect(ok, self.State(), Foes(roster)) ==
            FallbackEffect(card.cardType, card.target, card.upgraded, targetIndex, old(self.State()), old(Foes(roster)))
  {
    if card.cardType == Attack {
      if card.target == SingleEnemy {
        if 0 <= targetIndex < |roster| {
          var _ := roster[targetIndex].ch.TakeDamage(AttackDamage(card.upgraded));
          return true;
        }
      } else if card.target == AllEnemies {
        HitAllLiving(roster, AttackDamage(card.upgraded));
        return true;
      }
    } else if card.cardType == Skill {
      if card.target == SelfTarget {
        self.AddBlock(SkillBlock(card.upgraded));
        return true;
      }
    }
    return false;
  }

  /** The played card at `i` leaves the hand: exhausted if it is a power, discarded otherwise. */
  method PutAway(card: Card, player: Player, i: int)
    requires 0 <= i < |player.hand|
    modifies player`hand, player`discardPile, player`exhaustPile
    ensures player.AllPiles() == if card.cardType == Power then ExhaustedAt(old(player.AllPiles()), i)
                                 else DiscardedAt(old(player.AllPiles()), i)
  {
    if card.cardType != Power {
      var _ := player.DiscardCards([i]);
      OneIndexDiscarded(old(player.AllPiles()), i);
    } else {
      var _ := player.ExhaustCard(i);
    }
  }

  /** `play`: nothing changes when `canPlay` fails; otherwise the outcome is `PlayedFrom`. */
  method Play(card: Card, player: Player, targetIndex: int, roster: seq<Enemies.Enemy>) returns (ok: bool)
    requires player.Valid() && Fit(roster) && Distinct(roster) && Apart(player.ch, roster)
    modifies player.ch, player`hand, player`discardPile, player`exhaustPile, Chars(roster)
    ensures player.Valid() && Fit(roster)
    ensures var before := old(Table(player.AllPiles(), player.ch.State(), Foes(roster)));
      var after := Table(player.AllPiles(), player.ch.State(), Foes(roster));
      if old(CanPlay(card, player, targetIndex, Some(roster))) then Played(ok, after) == PlayedFrom(card, targetIndex, before)
      else !ok && after == before
  {
    if !CanPlay(card, player, targetIndex, Some(roster)) {
      return false;
    }
    ghost var before := Table(player.AllPiles(), player.ch.State(), Foes(roster));
    var _ := player.ch.UseEnergy(card.cost);
    assert Table(player.AllPiles(), player.ch.State(), Foes(roster)) == before.(self := Spent(before.self, card.cost));
    ok := Resolve(card, player, targetIndex, roster);
  }

  /** The part of `play` after the energy is spent. */
  method Resolve(card: Card, player: Player, targetIndex: int, roster: seq<Enemies.Enemy>) returns (ok: bool)
    requires player.Valid() && Fit(roster) && Distinct(roster) && Apart(player.ch, roster)
    modifies player.ch, player`hand, player`discardPile, player`exhaustPile, Chars(roster)
    ensures player.Valid() && Fit(roster)
    ensures Played(ok, Table(player.AllPiles(), player.ch.State(), Foes(roster))) ==
            Resolved(card, targetIndex, old(Table(player.AllPiles(), player.ch.State(), Foes(roster))))
  {
    var i := FindCard(player.hand, card);
    if i < 0 {
      return false;
    }
    ok := ApplyAndPutAway(card, player, i, targetIndex, roster);
  }

  /** The card found at `i`: its effect, then, when it took, the card's move out of the hand. */
  method ApplyAndPutAway(card: Card, player: Player, i: int, targetIndex: int, roster: seq<Enemies.Enemy>)
    returns (ok: bool)
    requires 0 <= i < |player.hand| && i == FirstIndex(player.hand, card)
    requires player.Valid() && Fit(roster) && Distinct(roster) && Apart(player.ch, roster)
    modifies player.ch, player`hand, player`discardPile, player`exhaustPile, Chars(roster)
    ensures player.Valid() && Fit(roster)
    ensures Played(ok, Table(player.AllPiles(), player.ch.State(), Foes(roster))) ==
            Resolved(card, targetIndex, old(Table(player.AllPiles(), player.ch.State(), Foes(roster))))
  {
    ok := ApplyFallback(card, player.ch, targetIndex, roster);
    if ok {
      PutAway(card, player, i);
    }
  }
}
