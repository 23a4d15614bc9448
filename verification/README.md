# deckstiny combat core in Dafny

This project models the rules engine of the deckbuilding game deckstiny:

- **Combatants.** Characters with health, block, energy and a table of status effects.
- **Player piles.** The player's four card piles (draw, hand, discard, exhaust), gold and relics.
- **Cards.** Cards with their play rules and fixed fallback effects.
- **Enemies.** Enemies with intents, a move table and a move list.
- **Combat.** The combat loop: start, card play, the player's turn, enemy turns in roster order, victory and defeat.
- **Delayed actions.** The queue of delayed combat actions and the order in which they are served.
- **Map navigation.** Navigation over a given room graph, with its breadth-first validity check.
- **Events.** Event choices and their effects.
- **Relics.** Relic counters and hooks.
- **Score.** The final score.
- **Interface helpers.** The pure text helpers of the two user interfaces.

Objects whose fields the game updates in place are Dafny classes:

| Class | Module |
|---|---|
| `Character` | `Characters` |
| `Player` | `Players` |
| `Enemy` | `Enemies` |
| `Card` | `Cards` |
| `Relic` | `Relics` |
| `Combat` | `Combats` |
| `GameMap` | `Maps` |
| `PathIds` (the path id counter shared by every map) | `Maps` |
| `Event` | `Events` |

How the classes are specified:

- **Inheritance.** `Player` and `Enemy` own a `Character` (`const ch`) instead of inheriting from it.
- **Methods.** Each method is specified against a function on values:
  - `CharState` and the functions `Damaged`, `Healed`, `TurnStarted` and so on;
  - `Piles` and the functions `DiscardedAt`, `ExhaustedAt`, `HandDiscarded` and `Gathered`;
  - `EnemyRound` for the enemy phase;
  - `Filter` and `Decremented` for the delayed-action queue.
- **Lemmas.** The lemmas state what the game promises about those functions:
  - conservation of the multiset of cards across the four piles;
  - health staying within `[0, maxHealth]`;
  - service order of the queue;
  - reachability in the room graph;
  - the score's arithmetic.

How other parts of the game are represented:

- **Randomness.** The random number generator is a nondeterministic choice within the bounds the code draws from. This covers:
  - shuffling (any permutation);
  - `chooseNextMove`;
  - `rollGoldReward`.
- **Room order.** The iteration order of the room table is an explicit duplicate-free enumeration `order` of its keys.
- **Cards.** Cards are object references, so "the same card" means the same object, as `shared_ptr` identity does in the game.

## Model

| member | source | states |
|---|---|---|
| Characters.StatusAdded | src/core/character.cpp:131-147 | adding stacks to a table with only positive counts keeps it so; the effect's count becomes max(0, old + stacks); every other effect is untouched |
| Characters.Damaged | src/core/character.cpp:34-65 | non-positive damage changes nothing; otherwise block absorbs first (block' = max(0, block − d)) and health' = max(0, health − max(0, d − block)); health never rises and stays in range |
| Characters.Healed | src/core/character.cpp:67-75 | no change for a non-positive amount or a dead character; otherwise health rises by the amount or reaches the maximum, and only health changes |
| Characters.BlockAdded | src/core/character.cpp:77-86 | block grows by the amount when it is positive and by nothing otherwise, so it stays non-negative |
| Characters.WithStatus | src/core/character.cpp:131-147 | only the status table changes, and the effect's count becomes max(0, old + stacks) |
| Characters.TurnStarted | src/core/character.cpp:162-170 | poison p deals p damage through block and leaves p − 1 stacks; without poison nothing changes |
| Characters.TurnEnded | src/core/character.cpp:172-180 | temporary strength t is removed and strength drops by t (floored at 0); only the status table changes |
| Characters.HealthStaysInRange | src/core/character.cpp:34-75 | any sequence of damage and healing keeps health within [0, maxHealth] |
| Characters.Character.constructor | src/core/character.cpp:9-11 | starts at full health with no block, no energy and no status effects |
| Characters.Character.SetHealth | src/core/character.cpp:17-19 | health is clamped to [0, maxHealth]; nothing else changes |
| Characters.Character.SetMaxHealth | src/core/character.cpp:25-28 | the maximum is floored at 1 and health is lowered to it when above |
| Characters.Character.TakeDamage | src/core/character.cpp:34-65 | the new state is `Damaged` of the old one; returns the requested amount (0 when non-positive), not the health lost |
| Characters.Character.Heal | src/core/character.cpp:67-75 | the new state is `Healed` of the old one; returns the health actually gained |
| Characters.Character.AddBlock | src/core/character.cpp:77-86 | the new state is `BlockAdded` of the old one |
| Characters.Character.ResetBlock | src/core/character.cpp:121-129 | block becomes 0 and nothing else changes |
| Characters.Character.SetEnergy | src/core/character.cpp:100-102 | energy becomes max(0, e) |
| Characters.Character.UseEnergy | src/core/character.cpp:104-115 | succeeds iff the amount is non-positive or covered; energy drops by the amount only on a positive, covered spend, otherwise it is unchanged |
| Characters.Character.ResetEnergy | src/core/character.cpp:117-119 | energy becomes base energy |
| Characters.Character.AddStatusEffect | src/core/character.cpp:131-147 | the new state is `WithStatus` of the old one, so no stored count is ever non-positive |
| Characters.Character.StartTurn | src/core/character.cpp:162-170 | the new state is `TurnStarted` of the old one |
| Characters.Character.EndTurn | src/core/character.cpp:172-180 | the new state is `TurnEnded` of the old one |
| Characters.Character.Clone | src/core/character.cpp:215-222 | a fresh character with the same state |
| Characters.Character.IsAlive | src/core/character.cpp:30-32 | alive exactly when health is positive |
| Characters.Character.GetStatusEffect | src/core/character.cpp:149-152 | 0 for an effect not in the table; in a valid table the count is never negative and is positive exactly for the effects present |
| Characters.Character.HasStatusEffect | src/core/character.cpp:154-156 | in a valid table, present exactly when its count is positive |
| Cards.Card.constructor | src/core/card.cpp:14-18 | fields as given, not upgraded, no class restriction |
| Cards.Card.SetCost | src/core/card.cpp:44-46 | the cost becomes max(0, c) |
| Cards.Card.Upgrade | src/core/card.cpp:56-70 | succeeds iff the card is upgradable and not yet upgraded; then it is upgraded and a positive cost drops by one; otherwise nothing changes, so a second call fails |
| Cards.Card.SetClassRestriction | src/core/card.cpp:449-451 | stores the class name and changes nothing else |
| Cards.Card.NeedsTarget | src/core/card.cpp:440-443 | a target is needed exactly for single-enemy cards |
| Players.CanUseByClass | src/core/card.cpp:453-458 | with no restriction or "ALL" every class may use the card; a class restriction admits exactly that class; without a player nothing is usable |
| CardPlay.CanPlayRules | src/core/card.cpp:72-112 | not playable without a player or a combat, or when energy is short; a single-enemy card needs a living target in range; ally targets are never playable; no-target and all-enemy cards are playable at any index |
| CardPlay.HitLiving | src/core/card.cpp:404-438 | an attack on all enemies damages every living enemy and leaves each dead one as it was |
| CardPlay.FallbackEffect | src/core/card.cpp:404-438 | succeeds exactly for an attack on a single valid enemy or on all enemies, and for a self-targeted skill; attacks deal 6 (9 upgraded), skills add 5 (8 upgraded) block; a failure changes nothing; only the targeted enemies change; health stays in range |
| CardPlay.Spent | src/core/card.cpp:119-122 | energy drops by the non-negative cost and nothing else changes |
| CardPlay.PlayedFrom | src/core/card.cpp:114-156 | the multiset of cards is conserved and energy is spent before the hand is searched; a card not in the hand fails with energy already spent; on success the first copy leaves the hand and goes to the exhaust pile (POWER) or the discard pile (otherwise) |
| CardPlay.Resolved | src/core/card.cpp:140-153 | applying the effect and putting the card away conserves the cards and leaves energy alone |
| CardPlay.OneIndexDiscarded | src/core/card.cpp:145-147 | discarding the single index list [i] is discarding card i |
| CardPlay.FindCard | src/core/card.cpp:124-133 | returns the first position of the card in the hand, or −1 |
| CardPlay.HitAllLiving | src/core/card.cpp:404-438 | the enemies' new states are `HitLiving` of their old ones |
| CardPlay.ApplyFallback | src/core/card.cpp:404-438 | player and enemy states afterwards are exactly `FallbackEffect` of the states before |
| CardPlay.PutAway | src/core/card.cpp:143-153 | a POWER card is exhausted, any other card discarded, from its hand position |
| CardPlay.Play | src/core/card.cpp:114-156 | when `canPlay` fails nothing changes and the result is false; otherwise the result and the new player, pile and enemy states are `PlayedFrom` of the old ones |
| CardPlay.Resolve | src/core/card.cpp:135-155 | the outcome equals `Resolved` on the state before |
| CardPlay.ApplyAndPutAway | src/core/card.cpp:140-155 | the outcome equals `Resolved` on the state before, for a card found at index i |
| Players.DestinationOf | src/core/player.cpp:66-110 | "discard", "hand" and "exhaust" name their own destinations (both directions), and anything else means the draw pile |
| Players.CardAdded | src/core/player.cpp:79-109 | the card is appended to the draw pile, the discard pile, the hand or the exhaust pile as the destination says, and only there; for the discard and exhaust piles one copy leaves the hand (multiset minus the card) |
| Players.Without | src/core/player.cpp:66-110 | removing a card from the hand removes one copy of it from the multiset |
| Players.CardAddedDeck | src/core/player.cpp:66-110 | adding a card grows the deck by that card, except when a card already in the hand is moved to the discard or exhaust pile |
| Players.DrawCount | src/core/player.cpp:119-184 | the number drawn is at most what draw and discard hold, at most the free hand room, and positive when there is room, demand and a card |
| Players.DiscardEachConserves | src/core/player.cpp:186-240 | discarding by a list of indices conserves hand + discard, keeps the old discard pile as a prefix, and moves exactly `count` cards |
| Players.DiscardEachDescending | src/core/player.cpp:186-240 | with strictly descending valid indices every index moves its own card, in that order |
| Players.DiscardedAt | src/core/player.cpp:268-306 | hand[i] leaves the hand (one copy fewer in its multiset) and is appended to the discard pile; draw and exhaust are untouched |
| Players.ExhaustedAt | src/core/player.cpp:308-317 | hand[i] leaves the hand (one copy fewer in its multiset) and is appended to the exhaust pile; draw and discard are untouched |
| Players.HandDiscarded | src/core/player.cpp:242-266 | the hand is empty and the discard pile is the old discard pile followed by the old hand, in order; draw and exhaust are untouched |
| Players.Gathered | src/core/player.cpp:348-352 | discard and exhaust are empty and the hand untouched; the draw pile is the old one followed by the discards and then the exhausted cards |
| Players.RepeatedIndexTakesNeighbour | src/core/player.cpp:211-234 | a repeated index, once the list is sorted, moves the card that slid into that position |
| Players.InsertDescending | src/core/player.cpp:211-213 | insertion into a non-increasing list keeps it non-increasing and adds exactly that element |
| Players.SortDescending | src/core/player.cpp:211-213 | the result is non-increasing and a permutation of the input |
| Players.DiscardedAtConserves | src/core/player.cpp:268-306 | discarding one card conserves the deck and shrinks the hand by one |
| Players.ExhaustedAtConserves | src/core/player.cpp:308-317 | exhausting one card conserves the deck and shrinks the hand by one |
| Players.HandDiscardedConserves | src/core/player.cpp:242-266 | discarding the hand conserves the deck |
| Players.IndicesDiscardedConserves | src/core/player.cpp:186-240 | discarding a list of indices conserves the deck, shrinks the hand by the count moved, and does nothing for an empty list |
| Players.GatheredConserves | src/core/player.cpp:348-352 | gathering discard and exhaust into the draw pile conserves the deck and leaves the hand alone |
| Players.DrawInvStep | src/core/player.cpp:147-169 | each draw takes the last card of the draw pile, after refilling an empty draw pile with a permutation of the discard pile |
| Players.DrawnCardsConserved | src/core/player.cpp:119-184 | drawn cards plus what is left in draw and discard are the cards that were there before |
| Players.DrawnFromOnePile | src/core/player.cpp:147-169 | with nothing to refill from, the cards drawn are the top of the draw pile, reversed |
| Players.DrawKeepsDeck | src/core/player.cpp:119-184 | drawing conserves the multiset of the four piles |
| Players.DrawDone | src/core/player.cpp:119-184 | when the draw loop stops it has drawn exactly `DrawCount` cards and the deck is as it was |
| Players.Player.constructor | src/core/player.cpp:14-17 | a fresh character at full health, no gold, empty piles, no relics |
| Players.Player.AddGold | src/core/player.cpp:27-31 | gold grows by a positive amount and ignores anything else |
| Players.Player.SpendGold | src/core/player.cpp:33-44 | succeeds iff the amount is non-positive or covered; gold drops only on a positive, covered spend |
| Players.Player.AddCard | src/core/player.cpp:66-110 | a null card or one the class cannot use changes nothing; otherwise the piles become `CardAdded` for the parsed destination |
| Players.Player.PutCard | src/core/player.cpp:79-109 | the piles become `CardAdded` for the destination |
| Players.Player.RemoveFromHand | src/core/player.cpp:84-89 | the hand loses the first copy of the card, if any |
| Players.Player.AddCardToDeck | src/core/player.cpp:525-534 | a usable card goes to the bottom of the draw pile; otherwise nothing changes |
| Players.Player.AddRelic | src/core/player.cpp:112-117 | a non-null relic is appended; null changes nothing |
| Players.Player.ShuffleDrawPile | src/core/player.cpp:328-331 | the draw pile becomes a permutation of itself |
| Players.Player.ShuffleDiscardIntoDraw | src/core/player.cpp:319-326 | the draw pile becomes a permutation of draw + discard and the discard pile is emptied |
| Players.Player.DrawCards | src/core/player.cpp:119-184 | returns `DrawCount`; the hand grows by exactly that many cards at its end, drawn as `DrawInvStep` says; the deck is conserved |
| Players.Player.DrawOne | src/core/player.cpp:147-169 | one draw step: the last card of the (refilled) draw pile is appended to the hand |
| Players.Player.DiscardCard | src/core/player.cpp:268-306 | an out-of-range index fails and changes nothing; otherwise hand[i] moves to the end of the discard pile |
| Players.Player.ExhaustCard | src/core/player.cpp:308-317 | an out-of-range index fails and changes nothing; otherwise hand[i] moves to the end of the exhaust pile |
| Players.Player.DiscardCards | src/core/player.cpp:186-240 | the indices are sorted descending and processed in that order; invalid ones are skipped; returns the count moved |
| Players.Player.DiscardInOrder | src/core/player.cpp:215-234 | processes the indices in the given order, as `DiscardEach` says |
| Players.Player.DiscardHand | src/core/player.cpp:242-266 | the hand is empty and its cards follow the discard pile in order; always succeeds |
| Players.Player.BeginCombat | src/core/player.cpp:333-377 | energy becomes base energy and block 0; discard and exhaust go into the draw pile (shuffled or appended in order); then up to the hand size is drawn; the deck is conserved |
| Players.Player.OpeningHand | src/core/player.cpp:348-363 | the pile part of `beginCombat`: gather, then draw the opening hand |
| Players.Player.GatherAndShuffle | src/core/player.cpp:348-360 | the draw pile becomes a permutation of draw + discard + exhaust, in that order when not shuffled |
| Players.Player.GatherPiles | src/core/player.cpp:348-352 | the piles become `Gathered` of the old ones |
| Players.Player.StartTurn | src/core/player.cpp:379-402 | the character becomes `PlayerTurnStarted` of its old state (its own turn start, then base energy added to what is left); the old hand goes under the discards and a hand of `DrawCount` cards is drawn from the draw pile, then from the shuffled discards, as `DrawInv` says; the deck is conserved |
| Players.Player.NewHand | src/core/player.cpp:386-393 | the hand goes to the discard pile and exactly `DrawCount` cards are drawn up to the hand size, from the draw pile and then from the discards (old hand included), as `DrawInv` says; the deck is conserved |
| Players.Player.EndTurn | src/core/player.cpp:404-420 | the character's turn ends and the whole hand goes to the discard pile in order |
| Players.Player.EndCombat | src/core/player.cpp:422-436 | each Burning Blood relic heals once, then block and energy become 0 |
| Players.Player.RelicsOnCombatEnd | src/core/player.cpp:423-426 | each Burning Blood relic heals once |
| Players.Player.IncreaseMaxHealth | src/core/player.cpp:514-523 | the maximum moves by the amount (never below 1), health is cut to the new maximum and is not raised, and a resulting health of exactly 11 becomes 1 |
| Players.MaxHealthRaised | src/core/player.cpp:514-523 | only maximum and health change; the maximum is max(1, old + amount); health never rises and, when it was not negative, ends within [0, maximum] |
| Players.PlayerTurnStarted | src/core/player.cpp:379-385 | apart from energy it is the character's own `TurnStarted`; with non-negative energies the base energy is added to the energy left |
| Players.Player.RelicsOnCombatStart | src/core/player.cpp:368-370 | the relics' combat-start hooks change neither the character nor the piles |
| Players.Player.RelicsOnTurnStart | src/core/player.cpp:399-401 | the relics' turn-start hooks change neither the character nor the piles |
| Players.Player.RelicsOnTurnEnd | src/core/player.cpp:417-419 | the relics' turn-end hooks change neither the character nor the piles |
| Players.BurningBloodCountSnoc | src/core/relic.cpp:96-105 | one more relic adds one heal exactly when it is Burning Blood |
| Players.HealedTimes | src/core/relic.cpp:96-105 | repeated heals change only health and keep it in range |
| Relics.Relic.constructor | src/core/relic.cpp:9-13 | fields as given, counter 0 |
| Relics.Relic.SetCounter | src/core/relic.cpp:39-41 | the counter becomes the argument |
| Relics.Relic.IncrementCounter | src/core/relic.cpp:43-46 | the counter grows by the amount and the new value is returned |
| Relics.Relic.ResetCounter | src/core/relic.cpp:48-50 | the counter becomes 0 |
| Relics.Relic.OnObtain | src/core/relic.cpp:52-56 | changes nothing |
| Relics.Relic.OnCombatStart | src/core/relic.cpp:58-63 | changes nothing |
| Relics.Relic.OnTurnStart | src/core/relic.cpp:65-70 | changes nothing |
| Relics.Relic.OnTurnEnd | src/core/relic.cpp:72-77 | changes nothing |
| Relics.Relic.OnTakeDamage | src/core/relic.cpp:79-85 | the damage passes through unchanged |
| Relics.Relic.OnDealDamage | src/core/relic.cpp:87-94 | the damage passes through unchanged |
| Relics.Relic.OnCombatEnd | src/core/relic.cpp:96-105 | heals the owner by 6 only for Burning Blood after a victory; otherwise the owner is unchanged |
| Relics.Relic.Clone | src/core/relic.cpp:151-155 | a fresh relic with the same fields and counter |
| Relics.Relic.CloneRelic | src/core/relic.cpp:157-159 | a fresh relic with the same fields and counter 0 |
| Enemies.KindOf | src/core/enemy.cpp:117-143 | each recognised intent type string maps to its own kind, and only that string does |
| Enemies.IntentApplied | src/core/enemy.cpp:110-148 | an intent never changes the enemy's health or energy and never lowers its block; the player is untouched, damaged by `value`, or given `value` stacks of the effect; health stays in range |
| Enemies.OnlyAttacksHurt | src/core/enemy.cpp:117-143 | only "attack" and "attack_defend" change the player's health or block, and then by `takeDamage(value)`; an unknown type changes nothing |
| Enemies.MoveEffect | src/core/enemy.cpp:323-349 | exactly "chomp", "thrash" and "bellow" are moves; chomp deals 11 damage |
| Enemies.MoveTable | src/core/enemy.cpp:335-345 | thrash deals 7 damage and adds 5 block; bellow adds 3 strength and 6 block and spares the player |
| Enemies.WithMove | src/core/enemy.cpp:154-158 | adding a move keeps the list free of duplicates, adds exactly that move, and leaves a known move list as it was |
| Enemies.WithMovesDistinct | src/core/enemy.cpp:303-306 | adding a duplicate-free list move by move reproduces it |
| Enemies.Enemy.constructor | src/core/enemy.cpp:12-14 | full health, no energy, no moves, default intent, gold range 10-20, neither elite nor boss |
| Enemies.Enemy.SetGoldReward | src/core/enemy.cpp:48-51 | stores the gold range |
| Enemies.Enemy.RollGoldReward | src/core/enemy.cpp:53-61 | 0 while the enemy lives; otherwise, for minGold ≤ maxGold, a value within [minGold, maxGold] |
| Enemies.Enemy.ChooseNextMove | src/core/enemy.cpp:63-108 | with no moves the intent becomes "unknown"/0/"player"; otherwise it is the stored intent of some move, or "unknown" when that move has none |
| Enemies.Enemy.TakeTurn | src/core/enemy.cpp:110-148 | a dead enemy or a missing player changes nothing; otherwise enemy and player become `IntentApplied` of their old states |
| Enemies.Enemy.AddPossibleMove | src/core/enemy.cpp:154-158 | the move list becomes `WithMove` of the old one |
| Enemies.Enemy.AddPossibleMoves | src/core/enemy.cpp:303-306 | the move list becomes `WithMoves` of the old one and stays duplicate-free |
| Enemies.Enemy.IntentFor | src/core/enemy.cpp:63-108 | a move with a stored intent announces it; any other announces "unknown" for 0, keeping the previous effect |
| Enemies.Enemy.Announced | src/core/enemy.cpp:63-108 | an announced intent is "unknown" or the stored intent of one of the enemy's moves |
| Enemies.Enemy.ExecuteMove | src/core/enemy.cpp:323-349 | succeeds iff there is a player and the move is in the table; then both states follow `MoveEffect`; otherwise nothing changes |
| Enemies.Enemy.CloneEnemy | src/core/enemy.cpp:297-321 | a fresh enemy with the same id, name, flags, gold range, moves, move intents, maximum, clamped health, block and status effects |
| Enemies.Enemy.CopyStatus | src/core/enemy.cpp:315-318 | the copy's status table becomes the original's |
| Enemies.Unknown | src/core/enemy.cpp:63-70 | the fallback intent is "unknown", 0, "player", and keeps the other fields |
| CombatActions.DefaultAction | include/core/combat.h:21-26 | a new action has priority 0, delay 0 and no source |
| CombatActions.StrictWeakOrder | include/core/combat.h:202-209 | the comparator is irreflexive, asymmetric and transitive, and so is incomparability |
| CombatActions.ServiceOrder | include/core/combat.h:202-209 | a smaller delay is served first; at equal delay the larger priority is served first; actions are tied exactly when delay and priority agree |
| CombatActions.TopExists | include/core/combat.h:202-212 | a non-empty queue has a top element that nothing is served before |
| CombatActions.TopHasLeastDelay | include/core/combat.h:202-212 | the top of the queue has the smallest delay |
| CombatActions.Filter | src/core/combat.cpp:277-303 | the due (or not-due) actions, in order, are no more than the queue |
| CombatActions.FilterAppend | src/core/combat.cpp:277-303 | filtering distributes over concatenation |
| CombatActions.FilterMembers | src/core/combat.cpp:277-303 | the filter keeps exactly the actions of the queue with the chosen dueness |
| CombatActions.FilterSplits | src/core/combat.cpp:277-303 | the due and the not-due actions together are the whole queue |
| CombatActions.TakeDue | src/core/combat.cpp:278-287 | removing one due action takes it out of the due part and leaves the rest unchanged |
| CombatActions.NothingDue | src/core/combat.cpp:278-287 | when nothing is due, the not-due part is the whole queue |
| CombatActions.Decremented | src/core/combat.cpp:289-297 | each action's delay drops by exactly one |
| CombatActions.ServeStep | src/core/combat.cpp:278-287 | serving a due top action keeps the drain invariant |
| CombatActions.DrainingDone | src/core/combat.cpp:278-287 | when the top is not due, exactly the due actions have run, in service order, and the queue is the not-due ones |
| CombatActions.ProcessedLosesNone | src/core/combat.cpp:277-303 | after processing, every due action ran, every other action is still queued with its delay lowered by one, none is lost, and no remaining delay is negative |
| Combats.EnemyRound | src/core/combat.cpp:160-194 | the enemy loop keeps one state per enemy |
| Combats.DeadEnemiesDoNotAct | src/core/combat.cpp:168-169 | enemies before the start and dead enemies are untouched by the enemy loop |
| Combats.NoLivingEnemyNoHarm | src/core/combat.cpp:168-194 | with no living enemy left the loop changes nothing and the player is not defeated |
| Combats.DefeatMeansPlayerDown | src/core/combat.cpp:180-192 | for a living player the loop reports defeat exactly when the player's health has reached 0 |
| Combats.DefeatStopsRound | src/core/combat.cpp:180-192 | after a defeat, some living enemy struck last and every enemy after it is untouched |
| Combats.TurnKeepsHealthInRange | src/core/combat.cpp:169-177 | one enemy turn keeps both characters' health in range |
| Combats.RoundKeepsHealthInRange | src/core/combat.cpp:168-194 | the whole enemy loop keeps every health in range |
| Combats.RoundStep | src/core/combat.cpp:168-192 | the loop at a living enemy is that enemy's turn, then defeat or the rest of the loop |
| Combats.EnemyActs | src/core/combat.cpp:169-177 | a living enemy's startTurn, takeTurn and endTurn give `EnemyTurn` of the two old states |
| Combats.EnemyTurn | src/core/combat.cpp:169-177 | one enemy turn: the enemy's health is that after its own turn start (poison); an enemy killed by poison leaves the player alone; otherwise the player is untouched, damaged by the intent's value, or given its effect; the player's health stays in range |
| Combats.Combat.constructor | src/core/combat.cpp:13-19 | no enemies, turn 0, player's turn, not in combat, empty queue |
| Combats.Combat.AddEnemy | src/core/combat.cpp:37-41 | a non-null enemy joins the end of the roster; null changes nothing |
| Combats.Combat.AreAllEnemiesDefeated | src/core/combat.cpp:58-65 | false for an empty roster, otherwise true iff no enemy is alive |
| Combats.Combat.IsPlayerDefeated | src/core/combat.cpp:67-69 | true exactly when there is a player and its health is at most 0 |
| Combats.Combat.IsCombatOver | src/core/combat.cpp:67-73 | not in combat, or every enemy defeated, or the player present and dead |
| Combats.Combat.Start | src/core/combat.cpp:83-112 | no player or no enemies changes nothing; otherwise turn 1, the player's turn, in combat, an empty queue, and every enemy announces a move |
| Combats.Combat.AnnounceMoves | src/core/combat.cpp:202-207 | every enemy (or every living one) announces a move; the others keep their intent |
| Combats.Combat.BeginPlayerTurn | src/core/combat.cpp:114-142 | outside combat nothing changes; otherwise it is the player's turn, the queue becomes its not-due actions one turn closer, and from the second turn on the character becomes `PlayerTurnStarted` and a new hand is drawn as `DrawInv` says (before that the piles are untouched); enemies are untouched and the deck is conserved |
| Combats.Combat.EndPlayerTurn | src/core/combat.cpp:144-158 | outside combat or without a player nothing changes; otherwise the player's turn ends (`TurnEnded`, hand discarded) and the combat moves as `TurnPassed` says: enemies act as `EnemyRound`; a defeat ends the combat with the queue and intents as they were; otherwise block resets, due actions run, living enemies announce new intents and the combat goes on iff an enemy lives; the counter grows by one either way, and a combat that goes on returns to the player, runs the due actions again and, from turn 2, starts the player's turn with a new hand; the deck is conserved |
| Combats.Combat.EnemiesThenNextTurn | src/core/combat.cpp:153-157 | enemy turns, then the next turn: the whole new combat state is as `TurnPassed` says, living enemies announce new intents, and the deck is conserved |
| Combats.Combat.NextTurn | src/core/combat.cpp:153-157 | the counter grows by one and `beginPlayerTurn` runs: the new state and the old one are related by `Begun`, and the deck is conserved |
| Combats.EnemiesThenBegun | src/core/combat.cpp:153-157 | the enemy phase (`EnemiesDone`) followed by the turn start (`Begun`) is exactly `TurnPassed` |
| Combats.Combat.PlayerEnds | src/core/combat.cpp:150 | the player's character becomes `TurnEnded` of its old state and the piles `HandDiscarded` of the old ones; the deck, the enemies' states and their intents are unchanged |
| Combats.Combat.ProcessEnemyTurns | src/core/combat.cpp:160-216 | outside combat nothing changes; otherwise it is not the player's turn and the enemy phase happened as `EnemyTurnsTaken` states |
| Combats.Combat.EnemyPhase | src/core/combat.cpp:165-215 | living enemies act in roster order as `EnemyRound` says; a defeat ends combat at once; otherwise the player's block resets, living enemies announce, the queue is processed, and combat ends if every enemy is dead |
| Combats.Combat.EnemiesAct | src/core/combat.cpp:168-194 | the player and enemy states afterwards are `EnemyRound` of the states before |
| Combats.Combat.ActAt | src/core/combat.cpp:169-177 | the enemy at i takes its turn, and only it and the player change |
| Combats.Combat.AfterEnemies | src/core/combat.cpp:196-215 | block resets, living enemies announce, due actions run and the others' delays drop, combat ends if all enemies are dead |
| Combats.Combat.ResetAndAnnounce | src/core/combat.cpp:196-207 | the player's block becomes 0 and each living enemy announces |
| Combats.Combat.PlayCard | src/core/combat.cpp:218-261 | an inactive combat, a missing player, the enemies' turn, a bad index or a failing `canPlay` returns false and changes nothing; otherwise the outcome is `PlayedFrom`, and combat goes on iff the enemies are not all defeated and the player is alive |
| Combats.Combat.Settle | src/core/combat.cpp:252-258 | the combat ends exactly when `areAllEnemiesDefeated` holds (a non-empty roster with nobody alive) or the player's health is at most 0 |
| Combats.Combat.AddDelayedAction | src/core/combat.cpp:263-275 | an empty action is ignored; otherwise the action joins the queue with its delay, priority and source |
| Combats.Combat.ProcessDelayedActions | src/core/combat.cpp:277-303 | what ran and what is left satisfy `ProcessedLosesNone` |
| Combats.Combat.RunDue | src/core/combat.cpp:278-287 | the actions run are exactly the due ones, in service order; the rest stay queued |
| Combats.Combat.DelayRest | src/core/combat.cpp:289-302 | every remaining delay drops by one |
| Combats.Combat.HandleEnemyDeath | src/core/combat.cpp:305-317 | combat ends when the index is valid and every enemy is dead; otherwise the flag is kept |
| Combats.Combat.End | src/core/combat.cpp:337-352 | combat is over afterwards, and a second call changes nothing |
| Maps.LinkAdded | src/core/map.cpp:272-296 | the link is added forward and backward only when both rooms exist and it is new; nothing else about any room changes |
| Maps.LinkKeepsLinked | src/core/map.cpp:272-296 | forward and backward links stay mutually consistent and duplicate-free |
| Maps.VisitKeepsLinked | src/core/map.cpp:693-705 | marking a room visited keeps the links consistent |
| Maps.StartRoom | src/core/map.cpp:488-500 | the start is the first room in iteration order on row 0, or none when no room is on row 0 |
| Maps.LastBoss | src/core/map.cpp:502-517 | the boss is the last BOSS room in iteration order, or none when there is none |
| Maps.ReachExtend | src/core/map.cpp:554-590 | a reachable room's successors are reachable |
| Maps.ClosedBlocks | src/core/map.cpp:554-590 | nothing outside a set closed under successors is reachable from inside it |
| Maps.SearchExpand | src/core/map.cpp:554-590 | expanding the front of the queue keeps the search invariant |
| Maps.SearchProgress | src/core/map.cpp:554-590 | each expansion either adds nothing or shrinks the unvisited rooms |
| Maps.Search | src/core/map.cpp:554-590 | the breadth-first search finds the boss iff it is reachable from the start |
| Maps.Unvisited | src/core/map.cpp:646-683 | the unvisited existing rooms of a list are no more than the list |
| Maps.UnvisitedMembers | src/core/map.cpp:646-683 | they are exactly the listed rooms that exist and are not visited |
| Maps.RatingsRank | src/core/map.cpp:440-479 | the difficulty equals the reward for every path type, between 3 and 8, increasing from safe to elite |
| Maps.Ratings | src/core/map.cpp:440-479 | difficulty equals reward, between 3 and 8 |
| Maps.PathAdjustment | src/core/map.cpp:753-771 | between -1 and 2, and 0 exactly for a normal path |
| Maps.RawFloorRange | src/core/map.cpp:730-781 | distance + 3 per act after the first, moved by at most -1 or +2 by the path |
| Maps.RoomTypeString | src/core/map.cpp:783-794 | never the fallback "UNKNOWN" |
| Maps.FloorRangeOf | src/core/map.cpp:730-781 | the raw difficulty clamped to [0, 15] |
| Maps.FloorRangeMonotone | src/core/map.cpp:753-774 | farther rooms, later acts and riskier paths never lower the difficulty |
| Maps.RoomTypeStringInjective | src/core/map.cpp:783-794 | different room types have different names |
| Maps.GameMap.constructor | src/core/map.cpp:12-17 | act 1, no current room, no rooms or paths, boss not defeated |
| Maps.GameMap.Generated | src/core/map.cpp:12-17 | a map over a given room graph with no current room |
| Maps.GameMap.CreateRoomLink | src/core/map.cpp:272-296 | the rooms become `LinkAdded`, which keeps the links consistent |
| Maps.GameMap.CreatePath | src/core/map.cpp:440-479 | a new path under the next id of the counter shared by all maps (never an id handed out before, never 0) and with the ratings of its type |
| Maps.PathIds.constructor | src/core/map.cpp:442 | the counter starts at 1 with no id handed out |
| Maps.PathIds.Take | src/core/map.cpp:446 | hands out the current value, which no earlier call returned, and moves the counter on by one |
| Maps.GameMap.MayEnterRules | src/core/map.cpp:593-621 | an unknown room is never enterable; with no current room only the start room is; otherwise exactly the current room's successors |
| Maps.GameMap.FindStart | src/core/map.cpp:488-500 | finds `StartRoom` |
| Maps.GameMap.CanMoveTo | src/core/map.cpp:593-621 | returns `MayEnter` |
| Maps.GameMap.MoveToRoom | src/core/map.cpp:623-630 | moves exactly when the room may be entered, and reports it |
| Maps.GameMap.CurrentRoom | src/core/map.cpp:632-639 | the current room when its id is set and known |
| Maps.GameMap.GetAvailableRooms | src/core/map.cpp:646-683 | the current room's unvisited existing successors, in order; empty without a current room |
| Maps.GameMap.MarkCurrentRoomVisited | src/core/map.cpp:693-705 | the current room is marked visited, and the boss counts as defeated if it is a BOSS room; no current room changes nothing |
| Maps.GameMap.IsMapCompleted | src/core/map.cpp:707-720 | true iff the boss is defeated or every room is visited |
| Maps.GameMap.MarkBossDefeated | src/core/map.cpp:726-728 | the boss is defeated afterwards |
| Maps.GameMap.EnemyFloorRange | src/core/map.cpp:730-781 | 0 without a current room, otherwise `FloorRangeOf` the current room; always within [0, 15] |
| Maps.GameMap.FindBoss | src/core/map.cpp:502-517 | finds `LastBoss` |
| Maps.GameMap.ValidateMap | src/core/map.cpp:481-591 | true iff a start and a boss exist and the boss is reachable from the start |
| Maps.FirstIsStart | src/core/map.cpp:488-500 | the first row-0 room in iteration order is the start |
| Maps.Expand | src/core/map.cpp:567-585 | the visited set gains every successor, and exactly the unvisited ones are queued |
| Events.Affordables | src/core/event.cpp:32-55 | the offered choices are no more than all choices |
| Events.AffordablesMembers | src/core/event.cpp:32-55 | exactly the choices whose positive gold and health costs are met are offered |
| Events.AffordablesAppend | src/core/event.cpp:32-55 | the filter keeps the choices' original order |
| Events.EffectsCompose | src/core/event.cpp:79-134 | effects apply in list order |
| Events.UnrecognisedSkipped | src/core/event.cpp:79-134 | an unknown effect type changes nothing |
| Events.KindOf | src/core/event.cpp:79-134 | each of the ten recognised effect type strings maps to its own kind, and only that string does |
| Events.EffectApplied | src/core/event.cpp:79-134 | gold never drops; only GAIN_GOLD and LOSE_GOLD touch gold, and they leave the character alone; only GAIN_HEALTH, LOSE_HEALTH and INCREASE_MAX_HEALTH touch the character |
| Events.EffectsApplied | src/core/event.cpp:79-134 | a list without gold effects keeps the gold, and one without character effects keeps the character |
| Events.LoseGoldKeepsGold | src/core/event.cpp:84-91 | LOSE_GOLD with a non-negative value leaves gold unchanged, because the negated amount is ignored |
| Events.GoldNeverDrops | src/core/event.cpp:79-134 | no list of effects lowers gold |
| Events.EffectsKeepHealthInRange | src/core/event.cpp:92-101 | no list of effects takes health out of [0, maxHealth] |
| Events.Event.constructor | src/core/event.cpp:11-14 | fields as given, no choices |
| Events.Event.GetAvailableChoices | src/core/event.cpp:26-56 | without a player all choices are returned and the cache is untouched; otherwise the cache is rebuilt with the affordable choices in order |
| Events.Event.ProcessChoice | src/core/event.cpp:58-135 | no game, a bad index or no player gives its error text and changes nothing; otherwise the player becomes `EffectsApplied` of the choice's effects and the text opens with the result text and a blank line |
| Events.ApplyEffect | src/core/event.cpp:79-133 | one effect changes gold and the character as `EffectApplied` says |
| Scores.CalculateScore | src/core/game.cpp:1803-1846 | 0 without a player; otherwise `Score` of the player's standing and the map's progress |
| Scores.Score | src/core/game.cpp:1803-1846 | 0 without a player; never negative when gold, health, act and row are not |
| Scores.NoPlayerNoScore | src/core/game.cpp:1806-1809 | without a player the score is 0 whatever the map |
| Scores.GoldAndHealthPoints | src/core/game.cpp:1812-1815 | one point per gold, two per health |
| Scores.MapPoints | src/core/game.cpp:1818-1832 | a map adds 10 per row of the current room, 100 per act and 500 for a defeated boss |
| Scores.BossPoints | src/core/game.cpp:1829-1831 | defeating the boss is worth exactly 500 |
| Scores.RelicPoints | src/core/game.cpp:1835-1836 | 50 per relic |
| Scores.ExhaustNotCounted | src/core/game.cpp:1839-1843 | the exhaust pile does not count |
| Scores.DiscardKeepsScore | src/core/game.cpp:1839-1843 | discarding one card or the whole hand keeps the score |
| Scores.ExhaustCostsFive | src/core/game.cpp:1839-1843 | exhausting a card from the hand costs 5 points |
| Scores.GatherCountsExhausted | src/core/game.cpp:1839-1843 | gathering the piles for a new combat adds 5 per exhausted card |
| TextUi.CenterString | src/ui/text_ui.cpp:617-625 | on the string's bytes: `str` unchanged when it fills the width; otherwise leading spaces then `str`, never longer than max(width, byte length), with `str` as its suffix |
| TextUi.CenterStringCountsBytes | src/ui/text_ui.cpp:617-618 | a two-byte UTF-8 character takes two columns: "é" centred in 6 gets two spaces |
| TextUi.CenterStringBalanced | src/ui/text_ui.cpp:623-624 | the left padding is half the free width rounded down, so it is the right gap or one less |
| TextUi.RoomTypeName | src/ui/text_ui.cpp:565-576 | never empty and never the fallback "Unknown Room" |
| TextUi.CardTypeName | src/ui/text_ui.cpp:578-587 | never empty and never the fallback "Unknown" |
| TextUi.CardRarityName | src/ui/text_ui.cpp:589-598 | never empty and never the fallback "Unknown" |
| TextUi.RelicRarityName | src/ui/text_ui.cpp:600-611 | never empty and never the fallback "Unknown" |
| TextUi.RoomTypeNamesDistinct | src/ui/text_ui.cpp:565-576 | room type names are distinct and never the fallback |
| TextUi.CardTypeNamesDistinct | src/ui/text_ui.cpp:578-587 | card type names are distinct and never the fallback |
| TextUi.CardRarityNamesDistinct | src/ui/text_ui.cpp:589-598 | card rarity names are distinct and never the fallback |
| TextUi.RelicRarityNamesDistinct | src/ui/text_ui.cpp:600-611 | relic rarity names are distinct and never the fallback |
| GraphicalUi.CardTypeNameGfx | src/ui/graphical_ui.cpp:34-43 | the windowed interface names card types as the console does |
| GraphicalUi.IntentText | src/ui/graphical_ui.cpp:46-93 | buff and debuff intents open with "Buff" and "Debuff"; the text is empty exactly for an empty type with no positive value |
| GraphicalUi.AttackShown | src/ui/graphical_ui.cpp:48-51 | attacking intents open with "Attack: ", and a plain attack's text reads back as its value |
| GraphicalUi.DefendShown | src/ui/graphical_ui.cpp:52-53 | defending intents open with "Defend: ", and a plain defend's text reads back as its value |
| GraphicalUi.BuffNoteIffEffect | src/ui/graphical_ui.cpp:54-63 | a buff or debuff is the bare word exactly when it names no effect |
| GraphicalUi.DebuffNoteShown | src/ui/graphical_ui.cpp:64-85 | the value then ", Debuff", or ", Debuff (effect)" that includes the secondary value exactly when it is positive |
| GraphicalUi.OtherKindShown | src/ui/graphical_ui.cpp:86-91 | any other type prints itself, followed by " (value)" exactly when the value is positive |

Notes on what the code does:

- **Queue order.** The delayed-action queue follows the comparator in include/core/combat.h. The smaller delay is served first. At equal delay the larger priority is served first. Equal pairs are not ordered by insertion.
- **LOSE_GOLD.** The effect leaves gold unchanged, because `addGold` ignores the negated amount. The model keeps this behaviour as written.
- **increaseMaxHealth.** A health of exactly 11 is reset to 1 after the raise. The model keeps this special case as written.

## Left out

- **Card effects from data files.** `Card::onPlay` reads the card's data file for its effect list (src/core/card.cpp:256-401). The model plays every card through `fallbackCardEffect`, the path taken when no data file is found.
- **File loading.** Every `loadFromJson` is left out. So is `Event::clone` together with the event data it copies.
- **Logging, console output and rendering** are left out: they change no game state.
- **Randomness.** The random draws in `shuffleDrawPile`, `chooseNextMove` and `rollGoldReward` are nondeterministic choices. So is the card named by an event's UPGRADE_CARD line. No distribution is modelled.
- **Calls into the game.** The game callbacks are left out:
  - `game_->endCombat`, which hands out rewards;
  - the card and relic rewards of events (ADD_CARD, REMOVE_CARD, ADD_RELIC, RANDOM_RELIC, UPGRADE_CARD);
  - `calculateRewards`.

  Events report only their text lines for these.
- **setPlayer and setGame.** The combat's player is fixed at construction.
- **Delayed actions.** A delayed action's body is an opaque id, and running it has no modelled effect.
- **The priority queue's heap layout.** The queue is a sequence whose service order is given by the comparator.
- **Roster aliasing.** The roster's enemies must be distinct objects, and distinct from the player's character. The game never shares them.
- **Map generation.** `generate`, `createRoom`, `setRoomType` and the act generators are left out. The map is an arbitrary given room graph.
- **Room table iteration order.** The order is the explicit `order` enumeration, not the hash table's.
- **validateMap's largest-floor computation.** It does not affect the verdict.
- **Room data.** The free-form JSON data of rooms is not modelled.
- **Integer overflow.** Health, gold, score and counter arithmetic is unbounded. 32-bit overflow is not modelled.
- **The "Unknown" defaults** of the enum-to-string switches cannot be reached: Dafny enumerations are closed. The lemmas show that the fallback names are never returned.
- Events.Event.ProcessChoice: states only that the result text opens with the choice's result text and a blank line, not the exact effect lines that follow.
- Enemies.Enemy.RollGoldReward: for a dead enemy with minGold > maxGold the model returns minGold, while `std::uniform_int_distribution` is undefined for such a range; the contract states the bounds only for a well-formed range.
- Enemies.Enemy.ChooseNextMove: states the announced intent through `Announced`, a choice among the moves' stored intents, not a uniform draw.
