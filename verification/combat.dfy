/** A combat (src/core/combat.cpp): the player against a roster of enemies,
    taken turn by turn, with a queue of delayed actions. The game the combat
    reports back to is absent; a delayed action's body is an opaque id. */
module Combats {
  import opened Basics
  import opened Characters
  import opened Cards
  import opened Players
  import Enemies
  import opened Rosters
  import opened CardPlay
  import opened CombatActions

  /** `areAllEnemiesDefeated` on the enemies' states: there is an enemy, and none is alive. */
  predicate AllDefeated(foes: seq<CharState>) {
    |foes| > 0 && forall i :: 0 <= i < |foes| ==> foes[i].health <= 0
  }

  /** One enemy's turn against the player, `Fight(enemy, player)`: its startTurn (poison may
      kill it), its takeTurn (nothing for a dead enemy), then its endTurn. */
  function EnemyTurn(i: Enemies.Intent, self: CharState, player: CharState): (r: Enemies.Fight)
    ensures r.self.health == TurnStarted(self).health
    ensures TurnStarted(self).health <= 0 ==> r.foe == player
    ensures r.foe == player || r.foe == Damaged(player, i.value) || r.foe == WithStatus(player, i.effect, i.value)
    ensures HealthInRange(player) ==> HealthInRange(r.foe)
  {
    var s := TurnStarted(self);
    var f := if s.health > 0 then Enemies.IntentApplied(i, s, player) else Enemies.Fight(s, player);
    Enemies.Fight(TurnEnded(f.self), f.foe)
  }

  /** The player's state, the enemies' states, and whether the player went down. */
  datatype Round = Round(self: CharState, foes: seq<CharState>, defeated: bool)

  /** The enemy loop of `processEnemyTurns` from roster position `i`: each living enemy acts
      with its announced intent, in roster order, and the loop stops as soon as the player is
      defeated. */
  function EnemyRound(intents: seq<Enemies.Intent>, self: CharState, foes: seq<CharState>, i: nat): (r: Round)
    requires |intents| == |foes| && i <= |foes|
    ensures |r.foes| == |foes|
    decreases |foes| - i
  {
    if i == |foes| then Round(self, foes, false)
    else if foes[i].health <= 0 then EnemyRound(intents, self, foes, i + 1)
    else
      var f := EnemyTurn(intents[i], foes[i], self);
      if f.foe.health <= 0 then Round(f.foe, foes[i := f.self], true)
      else EnemyRound(intents, f.foe, foes[i := f.self], i + 1)
  }

  /** A combat with a player, as values: the player's character and piles, the enemies'
      states and intents, the queue, the turn counter and the two flags. */
  datatype Scene = Scene(self: CharState, piles: Piles, foes: seq<CharState>, intents: seq<Enemies.Intent>,
                         queue: seq<CombatAction>, turn: int, playerTurn: bool, inCombat: bool)

  /** What the enemies' turns and the start of the next turn leave behind, in `t`, from enemies
      at `foes0` announcing `intents0`, a queue `queue0`, turn `turn0`, and a player whose
      character was `self0` and whose piles were `p0` once the player's own turn had ended.
      The enemies acted as `EnemyRound` says and the turn counter moved on. A defeated player
      ends the combat with the queue and the intents as they were. Otherwise the player's
      block is gone, the due actions ran, and the combat goes on while an enemy lives; when it
      goes on it is the player's turn again, the due actions run once more, and from turn 2
      on the player's turn starts and a fresh hand is drawn from the draw pile and then from
      the discards (which now hold the old hand). */
  ghost predicate TurnPassed(foes0: seq<CharState>, intents0: seq<Enemies.Intent>, queue0: seq<CombatAction>,
                             turn0: int, self0: CharState, p0: Piles, t: Scene)
    requires |intents0| == |foes0|
  {
    var r := EnemyRound(intents0, self0, foes0, 0);
    var q := Decremented(Filter(queue0, false));
    var s := r.self.(block := 0);
    var goesOn := !r.defeated && !AllDefeated(r.foes);
    t.foes == r.foes && t.turn == turn0 + 1 && t.inCombat == goesOn && t.playerTurn == goesOn &&
    (r.defeated ==> t.self == r.self && t.queue == queue0 && t.intents == intents0) &&
    (!r.defeated && !goesOn ==> t.self == s && t.queue == q) &&
    (goesOn ==>
       t.queue == Decremented(Filter(q, false)) &&
       t.self == (if t.turn > 1 then PlayerTurnStarted(s) else s)) &&
    (goesOn && t.turn > 1 ==>
       DrawInv(p0.draw, p0.discard + p0.hand, t.piles.hand, t.piles.draw, t.piles.discard) &&
       t.piles.exhaust == p0.exhaust) &&
    (!(goesOn && t.turn > 1) ==> t.piles == p0)
  }

  /** `processEnemyTurns` in an active combat, from `n0` to `n1`, leaving the intents aside. */
  ghost predicate EnemiesDone(n0: Scene, n1: Scene)
    requires |n0.intents| == |n0.foes|
  {
    var r := EnemyRound(n0.intents, n0.self, n0.foes, 0);
    n1.foes == r.foes && n1.piles == n0.piles && n1.turn == n0.turn &&
    (r.defeated ==> n1.self == r.self && n1.queue == n0.queue && n1.intents == n0.intents && !n1.inCombat) &&
    (!r.defeated ==>
       n1.self == r.self.(block := 0) && n1.queue == Decremented(Filter(n0.queue, false)) &&
       n1.inCombat == !AllDefeated(r.foes))
  }

  /** The turn counter moves on and `beginPlayerTurn` runs, from `n1` to `n2`. */
  ghost predicate Begun(n1: Scene, n2: Scene) {
    n2.foes == n1.foes && n2.intents == n1.intents && n2.turn == n1.turn + 1 && n2.inCombat == n1.inCombat &&
    (!n1.inCombat ==> n2.self == n1.self && n2.piles == n1.piles && n2.queue == n1.queue && n2.playerTurn == n1.playerTurn) &&
    (n1.inCombat ==>
       n2.playerTurn && n2.queue == Decremented(Filter(n1.queue, false)) &&
       n2.self == (if n2.turn > 1 then PlayerTurnStarted(n1.self) else n1.self)) &&
    (n1.inCombat && n2.turn > 1 ==>
       DrawInv(n1.piles.draw, n1.piles.discard + n1.piles.hand, n2.piles.hand, n2.piles.draw, n2.piles.discard) &&
       n2.piles.exhaust == n1.piles.exhaust) &&
    (!(n1.inCombat && n2.turn > 1) ==> n2.piles == n1.piles)
  }

  /** The enemies' turns followed by the start of the next turn pass the turn as `TurnPassed` says. */
  lemma EnemiesThenBegun(n0: Scene, n1: Scene, n2: Scene)
    requires |n0.intents| == |n0.foes|
    requires EnemiesDone(n0, n1) && !n1.playerTurn && Begun(n1, n2)
    ensures TurnPassed(n0.foes, n0.intents, n0.queue, n0.turn, n0.self, n0.piles, n2)
  {
  }

  /** `after` agrees with `foes` on every enemy before `i` and on every dead enemy. */
  predicate Untouched(foes: seq<CharState>, after: seq<CharState>, i: nat)
    requires |after| == |foes|
  {
    forall k :: 0 <= k < |foes| && (k < i || foes[k].health <= 0) ==> after[k] == foes[k]
  }

  /** Replacing the living enemy at `i` touches nobody before it and no dead enemy. */
  lemma UntouchedUpdate(foes: seq<CharState>, i: nat, x: CharState)
    requires i < |foes| && foes[i].health > 0
    ensures Untouched(foes, foes[i := x], i)
  {
  }

  /** What is untouched from `i + 1` on after replacing the living enemy at `i` is untouched
      from `i` on before. */
  lemma UntouchedStep(foes: seq<CharState>, i: nat, x: CharState, after: seq<CharState>)
    requires i < |foes| && foes[i].health > 0 && |after| == |foes|
    requires Untouched(foes[i := x], after, i + 1)
    ensures Untouched(foes, after, i)
  {
    forall k | 0 <= k < |foes| && (k < i || foes[k].health <= 0) ensures after[k] == foes[k] {
      assert k != i && foes[i := x][k] == foes[k];
    }
  }

  /** Enemies before `i`, and enemies already dead, do not act. */
  lemma {:induction false} DeadEnemiesDoNotAct(intents: seq<Enemies.Intent>, self: CharState, foes: seq<CharState>, i: nat)
    requires |intents| == |foes| && i <= |foes|
    ensures Untouched(foes, EnemyRound(intents, self, foes, i).foes, i)
    decreases |foes| - i
  {
    if i < |foes| {
      if foes[i].health <= 0 {
        DeadEnemiesDoNotAct(intents, self, foes, i + 1);
        var after := EnemyRound(intents, self, foes, i + 1).foes;
        assert EnemyRound(intents, self, foes, i).foes == after;
        assert Untouched(foes, after, i);
      } else {
        var f := EnemyTurn(intents[i], foes[i], self);
        RoundStep(intents, self, foes, i);
        var after := EnemyRound(intents, self, foes, i).foes;
        if f.foe.health > 0 {
          DeadEnemiesDoNotAct(intents, f.foe, foes[i := f.self], i + 1);
          assert after == EnemyRound(intents, f.foe, foes[i := f.self], i + 1).foes;
          UntouchedStep(foes, i, f.self, after);
          assert Untouched(foes, after, i);
        } else {
          assert after == foes[i := f.self];
          UntouchedUpdate(foes, i, f.self);
          assert Untouched(foes, after, i);
        }
      }
    } else {
      assert Untouched(foes, EnemyRound(intents, self, foes, i).foes, i);
    }
  }

  /** With no living enemy the round changes nothing. */
  lemma {:induction false} NoLivingEnemyNoHarm(intents: seq<Enemies.Intent>, self: CharState, foes: seq<CharState>, i: nat)
    requires |intents| == |foes| && i <= |foes|
    requires forall k :: i <= k < |foes| ==> foes[k].health <= 0
    ensures EnemyRound(intents, self, foes, i) == Round(self, foes, false)
    decreases |foes| - i
  {
    if i < |foes| {
      NoLivingEnemyNoHarm(intents, self, foes, i + 1);
    }
  }

  /** Entering alive, the player is reported defeated exactly when the round leaves them at
      0 health. */
  lemma {:induction false} DefeatMeansPlayerDown(intents: seq<Enemies.Intent>, self: CharState, foes: seq<CharState>, i: nat)
    requires |intents| == |foes| && i <= |foes| && self.health > 0
    ensures var r := EnemyRound(intents, self, foes, i);
      r.defeated <==> r.self.health <= 0
    decreases |foes| - i
  {
    if i < |foes| {
      if foes[i].health <= 0 {
        DefeatMeansPlayerDown(intents, self, foes, i + 1);
      } else {
        var f := EnemyTurn(intents[i], foes[i], self);
        if f.foe.health > 0 {
          DefeatMeansPlayerDown(intents, f.foe, foes[i := f.self], i + 1);
        }
      }
    }
  }

  /** A defeat ends the round: the living enemy that brought the player down is the last one
      to act, and every enemy after it is left as it was. */
  lemma {:induction false} DefeatStopsRound(intents: seq<Enemies.Intent>, self: CharState, foes: seq<CharState>, i: nat)
    requires |intents| == |foes| && i <= |foes|
    ensures var r := EnemyRound(intents, self, foes, i);
      r.defeated ==>
        r.self.health <= 0 &&
        exists j :: i <= j < |foes| && foes[j].health > 0 && forall k :: j < k < |foes| ==> r.foes[k] == foes[k]
    decreases |foes| - i
  {
    if i < |foes| {
      if foes[i].health <= 0 {
        DefeatStopsRound(intents, self, foes, i + 1);
      } else {
        var f := EnemyTurn(intents[i], foes[i], self);
        RoundStep(intents, self, foes, i);
        if f.foe.health > 0 {
          DefeatStopsRound(intents, f.foe, foes[i := f.self], i + 1);
        }
      }
    }
  }

  predicate AllInRange(foes: seq<CharState>) {
    forall k :: 0 <= k < |foes| ==> HealthInRange(foes[k])
  }

  /** An enemy's turn keeps both healths within [0, maxHealth]. */
  lemma TurnKeepsHealthInRange(i: Enemies.Intent, self: CharState, player: CharState)
    requires HealthInRange(self) && HealthInRange(player)
    ensures var f := EnemyTurn(i, self, player);
      HealthInRange(f.self) && HealthInRange(f.foe)
  {
  }

  /** Everybody's health stays within [0, maxHealth] through the round. */
  lemma {:induction false} RoundKeepsHealthInRange(intents: seq<Enemies.Intent>, self: CharState, foes: seq<CharState>, i: nat)
    requires |intents| == |foes| && i <= |foes|
    requires HealthInRange(self) && AllInRange(foes)
    ensures var r := EnemyRound(intents, self, foes, i);
      HealthInRange(r.self) && AllInRange(r.foes)
    decreases |foes| - i
  {
    if i < |foes| {
      if foes[i].health <= 0 {
        RoundKeepsHealthInRange(intents, self, foes, i + 1);
        assert EnemyRound(intents, self, foes, i) == EnemyRound(intents, self, foes, i + 1);
      } else {
        var f := EnemyTurn(intents[i], foes[i], self);
        TurnKeepsHealthInRange(intents[i], foes[i], self);
        RoundStep(intents, self, foes, i);
        assert AllInRange(foes[i := f.self]);
        if f.foe.health > 0 {
          RoundKeepsHealthInRange(intents, f.foe, foes[i := f.self], i + 1);
        }
      }
    }
  }

  /** The round from a living enemy at `i`: it acts, and the round stops there if the player
      went down. */
  lemma RoundStep(intents: seq<Enemies.Intent>, self: CharState, foes: seq<CharState>, i: nat)
    requires |intents| == |foes| && i < |foes| && foes[i].health > 0
    ensures var f := EnemyTurn(intents[i], foes[i], self);
      EnemyRound(intents, self, foes, i) ==
        if f.foe.health <= 0 then Round(f.foe, foes[i := f.self], true)
        else EnemyRound(intents, f.foe, foes[i := f.self], i + 1)
  {
  }

  /** One living enemy's turn, on the objects: startTurn, takeTurn against the player, endTurn. */
  method EnemyActs(e: Enemies.Enemy, p: Character)
    requires e.ch.Valid() && p.Valid() && p != e.ch
    modifies e.ch, p
    ensures e.ch.Valid() && p.Valid()
    ensures Enemies.Fight(e.ch.State(), p.State()) == EnemyTurn(e.intent, old(e.ch.State()), old(p.State()))
  {
    e.ch.StartTurn();
    e.TakeTurn(p);
    e.ch.EndTurn();
  }

  class Combat {
    const player: Player?
    var enemies: seq<Enemies.Enemy>
    var turn: int
    var playerTurn: bool
    var inCombat: bool
    var queue: seq<CombatAction>

    /** The player as a frame, empty when there is none. */
    function Own(): set<Player> {
      if player != null then {player} else {}
    }

    function OwnChar(): set<Character> {
      if player != null then {player.ch} else {}
    }

    ghost function Roster(): set<Enemies.Enemy>
      reads this`enemies
    {
      set i | 0 <= i < |enemies| :: enemies[i]
    }

    /** The cards in the player's hand, as a frame. */
    ghost function Hand(): set<Card>
      reads Own()
    {
      if player != null then set c | c in player.hand else {}
    }

    /** The player's character and every enemy's character are valid and all different. */
    ghost predicate Valid()
      reads this`enemies, OwnChar(), Chars(enemies)
    {
      (player != null ==> player.Valid() && Apart(player.ch, enemies)) && Fit(enemies) && Distinct(enemies)
    }

    constructor (player: Player?)
      requires player != null ==> player.Valid()
      ensures Valid() && this.player == player
      ensures enemies == [] && turn == 0 && playerTurn && !inCombat && queue == []
    {
      this.player := player;
      enemies := [];
      turn := 0;
      playerTurn := true;
      inCombat := false;
      queue := [];
    }

    /** Appends an enemy; an absent one is ignored. */
    method AddEnemy(e: Enemies.Enemy?)
      requires Valid()
      requires e != null ==> e.ch.Valid() && Apart(e.ch, enemies) && (player != null ==> e.ch != player.ch)
      modifies this`enemies
      ensures Valid()
      ensures enemies == if e == null then old(enemies) else old(enemies) + [e]
    {
      if e != null {
        enemies := enemies + [e];
      }
    }

    predicate IsPlayerDefeated()
      reads OwnChar()
      ensures IsPlayerDefeated() <==> player != null && player.ch.State().health <= 0
    {
      player != null && !player.ch.IsAlive()
    }

    method AreAllEnemiesDefeated() returns (r: bool)
      ensures r == AllDefeated(Foes(enemies))
    {
      for i := 0 to |enemies|
        invariant forall k :: 0 <= k < i ==> enemies[k].ch.health <= 0
      {
        if enemies[i].ch.IsAlive() {
          return false;
        }
      }
      return |enemies| > 0;
    }

    method IsCombatOver() returns (r: bool)
      ensures r == (!inCombat || AllDefeated(Foes(enemies)) || IsPlayerDefeated())
    {
      if !inCombat {
        return true;
      }
      r := AreAllEnemiesDefeated();
      r := r || IsPlayerDefeated();
    }

    /** Only a combat with a player and at least one enemy starts: turn 1, the player's turn, an
        empty queue, and every enemy announces an intent. */
    method Start()
      requires Valid()
      modifies this`turn, this`playerTurn, this`inCombat, this`queue, Roster()`intent
      ensures player == null || enemies == [] ==>
                unchanged(this) && Intents(enemies) == old(Intents(enemies))
      ensures player != null && enemies != [] ==>
                turn == 1 && playerTurn && inCombat && queue == [] &&
                forall i :: 0 <= i < |enemies| ==> enemies[i].Announced(old(enemies[i].intent))
    {
      if player == null || enemies == [] {
        return;
      }
      turn := 1;
      playerTurn := true;
      inCombat := true;
      queue := [];
      AnnounceMoves(false);
    }

    /** Each enemy (each living one, when `onlyLiving`) announces its next intent. */
    method AnnounceMoves(onlyLiving: bool)
      requires Distinct(enemies)
      modifies Roster()`intent
      ensures forall i :: 0 <= i < |enemies| ==>
                if onlyLiving && enemies[i].ch.health <= 0 then enemies[i].intent == old(enemies[i].intent)
                else enemies[i].Announced(old(enemies[i].intent))
    {
      for i := 0 to |enemies|
        invariant forall k :: 0 <= k < i ==>
                    if onlyLiving && enemies[k].ch.health <= 0 then enemies[k].intent == old(enemies[k].intent)
                    else enemies[k].Announced(old(enemies[k].intent))
        invariant forall k :: i <= k < |enemies| ==> enemies[k].intent == old(enemies[k].intent)
      {
        if !onlyLiving || enemies[i].ch.IsAlive() {
          enemies[i].ChooseNextMove();
        }
      }
    }

    /** The player's turn begins; from turn 2 on the player's own turn start runs first
        (on turn 1 the player was set up when the combat began). Then the due actions run. */
    method BeginPlayerTurn()
      requires Valid()
      modifies this`playerTurn, this`queue, OwnChar(), Own()`drawPile, Own()`hand, Own()`discardPile
      ensures Valid()
      ensures !old(inCombat) || player == null ==> unchanged(this) && unchanged(OwnChar()) && unchanged(Own())
      ensures old(inCombat) && player != null ==>
                playerTurn && queue == Decremented(Filter(old(queue), false)) &&
                player.ch.State() == (if turn > 1 then PlayerTurnStarted(old(player.ch.State())) else old(player.ch.State())) &&
                Deck(player.AllPiles()) == Deck(old(player.AllPiles()))
      ensures old(inCombat) && player != null && turn > 1 ==>
                DrawInv(old(player.drawPile), old(player.discardPile) + old(player.hand),
                        player.hand, player.drawPile, player.discardPile)
      ensures player != null && (!old(inCombat) || turn <= 1) ==> player.AllPiles() == old(player.AllPiles())
      ensures Foes(enemies) == old(Foes(enemies)) && Intents(enemies) == old(Intents(enemies))
    {
      if !inCombat || player == null {
        return;
      }
      playerTurn := true;
      if turn > 1 {
        player.StartTurn();
      }
      var _ := ProcessDelayedActions();
    }

    /** The player's turn ends: the player's own turn end, the enemies' turns, then the next
        turn begins. */
    method EndPlayerTurn()
      requires Valid()
      modifies this`turn, this`playerTurn, this`inCombat, this`queue, OwnChar(), Chars(enemies), Roster()`intent
      modifies Own()`drawPile, Own()`hand, Own()`discardPile
      ensures Valid()
      ensures !old(inCombat) || player == null ==>
                unchanged(this) && unchanged(OwnChar()) && unchanged(Own()) && Foes(enemies) == old(Foes(enemies))
      ensures old(inCombat) && player != null ==>
                TurnPassed(old(Foes(enemies)), old(Intents(enemies)), old(queue), old(turn),
                           TurnEnded(old(player.ch.State())), HandDiscarded(old(player.AllPiles())), Now())
      ensures old(inCombat) && player != null ==>
                var r := EnemyRound(old(Intents(enemies)), TurnEnded(old(player.ch.State())), old(Foes(enemies)), 0);
                !r.defeated ==> Announcing(r.foes, old(Intents(enemies)))
      ensures player != null ==> Deck(player.AllPiles()) == Deck(old(player.AllPiles()))
    {
      if !inCombat || player == null {
        return;
      }
      ghost var n0 := Now();
      PlayerEnds();
      assert Now() == n0.(self := TurnEnded(n0.self), piles := HandDiscarded(n0.piles));
      EnemiesThenNextTurn();
    }

    /** The rest of `endPlayerTurn`: the enemies' turns, then the next turn begins. */
    method EnemiesThenNextTurn()
      requires Valid() && player != null && inCombat
      modifies this`turn, this`playerTurn, this`inCombat, this`queue, player.ch, Chars(enemies), Roster()`intent
      modifies player`drawPile, player`hand, player`discardPile
      ensures Valid()
      ensures TurnPassed(old(Foes(enemies)), old(Intents(enemies)), old(queue), old(turn),
                         old(player.ch.State()), old(player.AllPiles()), Now())
      ensures var r := EnemyRound(old(Intents(enemies)), old(player.ch.State()), old(Foes(enemies)), 0);
              !r.defeated ==> Announcing(r.foes, old(Intents(enemies)))
      ensures Deck(player.AllPiles()) == Deck(old(player.AllPiles()))
    {
      ghost var n0 := Now();
      ProcessEnemyTurns();
      ghost var n1 := Now();
      NextTurn();
      EnemiesThenBegun(n0, n1, Now());
    }

    /** The turn counter moves on and the player's turn begins. */
    method NextTurn()
      requires Valid() && player != null
      modifies this`turn, this`playerTurn, this`queue, player.ch, player`drawPile, player`hand, player`discardPile
      ensures Valid()
      ensures Begun(old(Now()), Now())
      ensures Deck(player.AllPiles()) == Deck(old(player.AllPiles()))
    {
      turn := turn + 1;
      BeginPlayerTurn();
    }

    /** The combat as values. */
    ghost function Now(): Scene
      requires player != null
      reads this, player, player.ch, Chars(enemies), Roster()
    {
      Scene(player.ch.State(), player.AllPiles(), Foes(enemies), Intents(enemies), queue, turn, playerTurn, inCombat)
    }

    /** Each enemy whose state in `foes` is dead kept its intent from `intents0`; each living
        one announced a new intent. */
    ghost predicate Announcing(foes: seq<CharState>, intents0: seq<Enemies.Intent>)
      requires |foes| == |enemies| && |intents0| == |enemies|
      reads this`enemies, Roster()
    {
      forall i :: 0 <= i < |enemies| ==>
        if foes[i].health <= 0 then enemies[i].intent == intents0[i]
        else enemies[i].Announced(intents0[i])
    }

    /** The player's own turn end, seen from the combat. */
    method PlayerEnds()
      requires Valid() && player != null
      modifies player.ch, player`hand, player`discardPile
      ensures Valid()
      ensures player.ch.State() == TurnEnded(old(player.ch.State()))
      ensures player.AllPiles() == HandDiscarded(old(player.AllPiles()))
      ensures Deck(player.AllPiles()) == Deck(old(player.AllPiles())) && Foes(enemies) == old(Foes(enemies))
      ensures Intents(enemies) == old(Intents(enemies))
    {
      player.EndTurn();
    }

    /** The enemies' turns: living enemies act in roster order; a defeated player ends the combat
        at once. Otherwise the player's block is reset, the living enemies announce their next
        intents, the due actions run, and the combat ends in victory if every enemy is dead. */
    method ProcessEnemyTurns()
      requires Valid()
      modifies this`playerTurn, this`inCombat, this`queue, OwnChar(), Chars(enemies), Roster()`intent
      ensures Valid()
      ensures !old(inCombat) || player == null ==>
                unchanged(this) && unchanged(OwnChar()) && Foes(enemies) == old(Foes(enemies)) &&
                Intents(enemies) == old(Intents(enemies))
      ensures old(inCombat) && player != null ==> !playerTurn && EnemyTurnsTaken()
    {
      if !inCombat || player == null {
        return;
      }
      ghost var n0 := Now();
      playerTurn := false;
      assert Now() == n0.(playerTurn := false);
      EnemyPhase();
    }

    /** What the enemies' turns did, for a combat with a player and an unchanged roster: the
        enemies acted as `EnemyRound` says; a defeated player ends the combat with the queue and
        the intents as they were; otherwise the player's block is gone, the due actions ran, the
        combat goes on while an enemy lives, and each living enemy announced a new intent. */
    twostate predicate EnemyTurnsTaken()
      requires player != null && old(enemies) == enemies
      reads this, player, player.ch, Chars(enemies), Roster()
    {
      var r := EnemyRound(old(Intents(enemies)), old(player.ch.State()), old(Foes(enemies)), 0);
      EnemiesDone(old(Now()), Now()) && (!r.defeated ==> Announcing(r.foes, old(Intents(enemies))))
    }

    /** `processEnemyTurns` in an active combat with a player. */
    method EnemyPhase()
      requires Valid() && player != null && inCombat
      modifies this`inCombat, this`queue, player.ch, Chars(enemies), Roster()`intent
      ensures Valid()
      ensures EnemyTurnsTaken()
    {
      ghost var n0 := Now();
      var defeated := EnemiesAct();
      ghost var r := EnemyRound(n0.intents, n0.self, n0.foes, 0);
      ghost var n1 := Now();
      assert r.foes == n1.foes && r.self == n1.self && r.defeated == defeated;
      assert n1.intents == n0.intents && n1.queue == n0.queue && n1.piles == n0.piles;
      if defeated {
        End(false);
        assert Now() == n1.(inCombat := false);
        return;
      }
      AfterEnemies();
      ghost var n2 := Now();
      assert n2.foes == r.foes && n2.self == r.self.(block := 0) && n2.piles == n0.piles;
      assert n2.queue == Decremented(Filter(n0.queue, false)) && n2.inCombat == !AllDefeated(r.foes);
      assert forall i :: 0 <= i < |enemies| ==> r.foes[i].health == enemies[i].ch.health;
    }

    /** The loop of `processEnemyTurns` over the roster. */
    method EnemiesAct() returns (defeated: bool)
      requires Valid() && player != null
      modifies player.ch, Chars(enemies)
      ensures Valid()
      ensures Round(player.ch.State(), Foes(enemies), defeated) ==
              EnemyRound(old(Intents(enemies)), old(player.ch.State()), old(Foes(enemies)), 0)
      ensures Intents(enemies) == old(Intents(enemies))
    {
      ghost var intents := Intents(enemies);
      ghost var start := EnemyRound(intents, player.ch.State(), Foes(enemies), 0);
      var i := 0;
      while i < |enemies|
        invariant 0 <= i <= |enemies| && Valid()
        invariant EnemyRound(intents, player.ch.State(), Foes(enemies), i) == start
        invariant Intents(enemies) == intents
      {
        if enemies[i].ch.IsAlive() {
          ghost var self, foes := player.ch.State(), Foes(enemies);
          ActAt(i);
          RoundStep(intents, self, foes, i);
          if IsPlayerDefeated() {
            assert Round(player.ch.State(), Foes(enemies), true) == start;
            return true;
          }
        }
        i := i + 1;
      }
      assert Round(player.ch.State(), Foes(enemies), false) == start;
      return false;
    }

    /** The living enemy at position `i` takes its turn; no other enemy changes. */
    method ActAt(i: nat)
      requires Valid() && player != null && i < |enemies| && enemies[i].ch.health > 0
      modifies player.ch, enemies[i].ch
      ensures Valid()
      ensures var f := EnemyTurn(enemies[i].intent, old(enemies[i].ch.State()), old(player.ch.State()));
        player.ch.State() == f.foe && Foes(enemies) == old(Foes(enemies))[i := f.self]
      ensures Intents(enemies) == old(Intents(enemies))
    {
      EnemyActs(enemies[i], player.ch);
      forall k | 0 <= k < |enemies| && k != i
        ensures enemies[k].ch.State() == old(enemies[k].ch.State()) && enemies[k].ch.Valid()
      {
        assert enemies[k].ch != enemies[i].ch by {
          if k < i { } else { }
        }
      }
    }

    /** What `processEnemyTurns` does once every enemy has acted and the player still stands. */
    method AfterEnemies()
      requires Valid() && player != null
      modifies this`inCombat, this`queue, OwnChar(), Roster()`intent
      ensures Valid()
      ensures player.ch.State() == old(player.ch.State()).(block := 0) && Foes(enemies) == old(Foes(enemies))
      ensures queue == Decremented(Filter(old(queue), false))
      ensures inCombat == (old(inCombat) && !AllDefeated(Foes(enemies)))
      ensures forall i :: 0 <= i < |enemies| ==>
                if enemies[i].ch.health <= 0 then enemies[i].intent == old(enemies[i].intent)
                else enemies[i].Announced(old(enemies[i].intent))
    {
      ResetAndAnnounce();
      var _ := ProcessDelayedActions();
      var all := AreAllEnemiesDefeated();
      if all {
        End(true);
      }
    }

    /** The player's block goes, and each living enemy announces its next intent. */
    method ResetAndAnnounce()
      requires Valid() && player != null
      modifies player.ch, Roster()`intent
      ensures Valid()
      ensures player.ch.State() == old(player.ch.State()).(block := 0) && Foes(enemies) == old(Foes(enemies))
      ensures forall i :: 0 <= i < |enemies| ==>
                if enemies[i].ch.health <= 0 then enemies[i].intent == old(enemies[i].intent)
                else enemies[i].Announced(old(enemies[i].intent))
    {
      player.ch.ResetBlock();
      AnnounceMoves(true);
    }

    /** The checks `playCard` makes before it plays the card at `cardIndex`. */
    ghost predicate Admits(cardIndex: int, targetIndex: int)
      reads this, OwnChar(), Own(), Hand(), Chars(enemies)
    {
      inCombat && player != null && playerTurn && 0 <= cardIndex < |player.hand| &&
      CanPlay(player.hand[cardIndex], player, targetIndex, Some(enemies))
    }

    /** Plays the card at `cardIndex` of the hand; afterwards the combat ends in victory if every
        enemy is dead, or in defeat if the player is. */
    method PlayCard(cardIndex: int, targetIndex: int) returns (ok: bool)
      requires Valid()
      modifies this`inCombat, OwnChar(), Own()`hand, Own()`discardPile, Own()`exhaustPile, Chars(enemies)
      ensures Valid()
      ensures !old(Admits(cardIndex, targetIndex)) ==>
                !ok && unchanged(this) && unchanged(OwnChar()) && unchanged(Own()) &&
                Foes(enemies) == old(Foes(enemies))
      ensures old(Admits(cardIndex, targetIndex)) ==>
                Played(ok, Table(player.AllPiles(), player.ch.State(), Foes(enemies))) ==
                  PlayedFrom(old(player.hand[cardIndex]), targetIndex,
                             old(Table(player.AllPiles(), player.ch.State(), Foes(enemies)))) &&
                inCombat == !(AllDefeated(Foes(enemies)) || player.ch.health <= 0)
    {
      if !inCombat || player == null || !playerTurn {
        return false;
      }
      if cardIndex < 0 || cardIndex >= |player.hand| {
        return false;
      }
      var card := player.hand[cardIndex];
      if !CanPlay(card, player, targetIndex, Some(enemies)) {
        return false;
      }
      ok := Play(card, player, targetIndex, enemies);
      Settle();
    }

    /** The end of `playCard`: the combat ends in victory if every enemy is dead, or in defeat
        if the player is. */
    method Settle()
      requires inCombat && player != null
      modifies this`inCombat
      ensures inCombat == !(AllDefeated(Foes(enemies)) || player.ch.health <= 0)
    {
      var all := AreAllEnemiesDefeated();
      if all {
        End(true);
      } else if IsPlayerDefeated() {
        End(false);
      }
    }

    /** Queues an action; an empty one (`None`) is ignored. */
    method AddDelayedAction(action: Option<ActionId>, delay: int, priority: int, source: string)
      modifies this`queue
      ensures queue == if action.None? then old(queue)
                       else old(queue) + [CombatAction(action.value, priority, delay, source)]
    {
      if action.Some? {
        queue := queue + [CombatAction(action.value, priority, delay, source)];
      }
    }

    /** Runs every due action, in the order the queue serves them, and brings every other action
        one turn closer. The actions run are returned. */
    method ProcessDelayedActions() returns (ran: seq<CombatAction>)
      modifies this`queue
      ensures Processed(old(queue), ran, queue)
    {
      ran := RunDue();
      DelayRest();
    }

    /** The first loop: serve the top action while it is due. */
    method RunDue() returns (ran: seq<CombatAction>)
      modifies this`queue
      ensures multiset(ran) == multiset(Filter(old(queue), true)) && InServiceOrder(ran)
      ensures queue == Filter(old(queue), false)
    {
      ran := [];
      while true
        invariant Draining(old(queue), ran, queue)
        decreases |queue|
      {
        if queue == [] {
          break;
        }
        TopExists(queue);
        var k :| 0 <= k < |queue| && IsTop(queue[k], queue);
        if !IsDue(queue[k]) {
          break;
        }
        ServeStep(old(queue), ran, queue, k);
        ran := ran + [queue[k]];
        queue := RemoveAt(queue, k);
      }
      DrainingDone(old(queue), ran, queue);
    }

    /** The second loop: every action left is put back one turn closer. */
    method DelayRest()
      modifies this`queue
      ensures queue == Decremented(old(queue))
    {
      var rest: seq<CombatAction> := [];
      for i := 0 to |queue|
        invariant |rest| == i
        invariant forall j :: 0 <= j < i ==> rest[j] == queue[j].(delay := queue[j].delay - 1)
      {
        rest := rest + [queue[i].(delay := queue[i].delay - 1)];
      }
      queue := rest;
    }

    /** A dead enemy at a valid position ends the combat in victory once every enemy is dead. */
    method HandleEnemyDeath(index: nat)
      modifies this`inCombat
      ensures inCombat == (old(inCombat) && !(index < |enemies| && AllDefeated(Foes(enemies))))
    {
      if index >= |enemies| {
        return;
      }
      var all := AreAllEnemiesDefeated();
      if all {
        End(true);
      }
    }

    /** Ends the combat; a combat that is already over is left alone. */
    method End(victorious: bool)
      modifies this`inCombat
      ensures !inCombat
      ensures !old(inCombat) ==> unchanged(this)
    {
      if !inCombat {
        return;
      }
      inCombat := false;
    }
  }
}
