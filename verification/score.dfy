/** The final score (`Game::calculateScore`, src/core/game.cpp): gold, twice the health, map
    progress, relics and the cards still in the deck, read from the player and the map. */
module Scores {
  import opened Basics
  import opened Cards
  import opened Players
  import opened Maps

  /** What the score reads from the player. */
  datatype Standing = Standing(gold: int, health: int, relics: nat, piles: Piles)

  /** What the score reads from the map: the row of the current room when there is one, the
      act, and whether the act's boss has fallen. */
  datatype Progress = Progress(floor: Option<int>, act: int, bossDefeated: bool)

  /** The points for map progress. */
  function ProgressPoints(g: Progress): int {
    (if g.floor.Some? then g.floor.value * 10 else 0) + g.act * 100 + (if g.bossDefeated then 500 else 0)
  }

  /** The cards the score counts: draw pile, discard pile and hand. */
  function Counted(p: Piles): nat {
    |p.draw| + |p.discard| + |p.hand|
  }

  function Score(player: Option<Standing>, m: Option<Progress>): (r: int)
    ensures player.None? ==> r == 0
    ensures (player.Some? && player.value.gold >= 0 && player.value.health >= 0 &&
             (m.Some? ==> m.value.act >= 0 && (m.value.floor.Some? ==> m.value.floor.value >= 0))) ==> r >= 0
  {
    match player
    case None => 0
    case Some(s) =>
      s.gold + s.health * 2 + (if m.Some? then ProgressPoints(m.value) else 0)
        + s.relics * 50 + Counted(s.piles) * 5
  }

  function StandingOf(player: Player): Standing
    reads player, player.ch
  {
    Standing(player.gold, player.ch.health, |player.relics|,
             Piles(player.drawPile, player.hand, player.discardPile, player.exhaustPile))
  }

  function ProgressOf(m: GameMap?): Option<Progress>
    reads m
  {
    if m == null then None
    else
      var room := m.CurrentRoom();
      Some(Progress(if room.Some? then Some(room.value.y) else None, m.act, m.bossDefeated))
  }

  /** `calculateScore` on the game's player and map, either of which may be absent. */
  function CalculateScore(player: Player?, m: GameMap?): (r: int)
    reads if player != null then {player, player.ch} else {}, m
    ensures player == null ==> r == 0
    ensures player != null ==>
              r == Score(Some(StandingOf(player)), ProgressOf(m))
  {
    if player == null then 0 else Score(Some(StandingOf(player)), ProgressOf(m))
  }

  /** Without a player there is no score, whatever the map. */
  lemma NoPlayerNoScore(m: Option<Progress>)
    ensures Score(None, m) == 0
  {
  }

  /** Each gold piece is worth one point and each point of health two. */
  lemma GoldAndHealthPoints(s: Standing, m: Option<Progress>, gold: int, health: int)
    ensures Score(Some(s.(gold := gold, health := health)), m)
              == Score(Some(s), m) + (gold - s.gold) + 2 * (health - s.health)
  {
  }

  /** A map adds ten points per row of the current room, a hundred per act and five hundred
      for a defeated boss; without a current room the row adds nothing. */
  lemma MapPoints(s: Standing, g: Progress)
    ensures Score(Some(s), Some(g)) - Score(Some(s), None)
              == (if g.floor.Some? then 10 * g.floor.value else 0) + 100 * g.act
                 + (if g.bossDefeated then 500 else 0)
  {
  }

  /** Defeating the boss is worth exactly five hundred points. */
  lemma BossPoints(s: Standing, g: Progress)
    ensures Score(Some(s), Some(g.(bossDefeated := true)))
              == Score(Some(s), Some(g.(bossDefeated := false))) + 500
  {
  }

  /** Each relic is worth fifty points. */
  lemma RelicPoints(s: Standing, m: Option<Progress>, relics: nat)
    ensures Score(Some(s.(relics := relics)), m) == Score(Some(s), m) + 50 * (relics - s.relics)
  {
  }

  /** Exhausted cards are not counted: the exhaust pile may be anything. */
  lemma ExhaustNotCounted(s: Standing, m: Option<Progress>, exhaust: seq<Card>)
    ensures Score(Some(s.(piles := s.piles.(exhaust := exhaust))), m) == Score(Some(s), m)
  {
  }

  /** Moving a card between counted piles keeps the score: discarding from the hand, or
      discarding the whole hand. */
  lemma DiscardKeepsScore(s: Standing, m: Option<Progress>, i: nat)
    requires i < |s.piles.hand|
    ensures Score(Some(s.(piles := DiscardedAt(s.piles, i))), m) == Score(Some(s), m)
    ensures Score(Some(s.(piles := HandDiscarded(s.piles))), m) == Score(Some(s), m)
  {
  }

  /** Exhausting a card from the hand costs five points. */
  lemma ExhaustCostsFive(s: Standing, m: Option<Progress>, i: nat)
    requires i < |s.piles.hand|
    ensures Score(Some(s.(piles := ExhaustedAt(s.piles, i))), m) == Score(Some(s), m) - 5
  {
  }

  /** Shuffling everything back for a new combat brings the exhausted cards back into the
      count, five points each. */
  lemma GatherCountsExhausted(s: Standing, m: Option<Progress>)
    ensures Score(Some(s.(piles := Gathered(s.piles))), m)
              == Score(Some(s), m) + 5 * |s.piles.exhaust|
  {
  }
}
