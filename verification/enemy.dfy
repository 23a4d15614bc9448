/** An enemy (src/core/enemy.cpp): a Character with an announced intent, a
    duplicate-free list of move ids, a table from move id to intent, elite and
    boss flags and a gold range. The random choices of the source (the next
    move, the gold reward) are nondeterministic choices within their bounds. */
module Enemies {
  import opened Basics
  import opened Characters

  /** What an enemy announces for its next action. The source's `type` field is `kind` here. */
  datatype Intent = Intent(kind: string, value: int, secondaryValue: int, target: string, effect: string)

  /** A default-constructed intent: empty strings and zeros. */
  const NoIntent := Intent("", 0, 0, "", "")

  /** The intent types `takeTurn` acts on; every other string is `OtherKind`. */
  datatype IntentKind = Attack | AttackDefend | Buff | Defend | Debuff | OtherKind

  function KindOf(kind: string): (k: IntentKind)
    ensures k == Attack <==> kind == "attack"
    ensures k == AttackDefend <==> kind == "attack_defend"
    ensures k == Buff <==> kind == "buff"
    ensures k == Defend <==> kind == "defend"
    ensures k == Debuff <==> kind == "debuff"
  {
    if kind == "attack" then Attack
    else if kind == "attack_defend" then AttackDefend
    else if kind == "buff" then Buff
    else if kind == "defend" then Defend
    else if kind == "debuff" then Debuff
    else OtherKind
  }

  /** The states of the acting enemy and of the player it faces. */
  datatype Fight = Fight(self: CharState, foe: CharState)

  /** `takeTurn` for a living enemy facing a player. */
  function IntentApplied(i: Intent, self: CharState, foe: CharState): (r: Fight)
    ensures r.self.health == self.health && r.self.maxHealth == self.maxHealth && r.self.energy == self.energy
    ensures r.foe == foe || r.foe == Damaged(foe, i.value) || r.foe == WithStatus(foe, i.effect, i.value)
    ensures r.self.block >= self.block
    ensures WellFormed(self) && WellFormed(foe) ==> WellFormed(r.self) && WellFormed(r.foe)
    ensures HealthInRange(foe) ==> HealthInRange(r.foe)
  {
    match KindOf(i.kind)
    case Attack => Fight(self, Damaged(foe, i.value))
    case AttackDefend => Fight(BlockAdded(self, i.secondaryValue), Damaged(foe, i.value))
    case Buff =>
      var buffed := if i.effect != "" then WithStatus(self, i.effect, i.value) else self;
      Fight(if i.secondaryValue > 0 then BlockAdded(buffed, i.secondaryValue) else buffed, foe)
    case Defend => Fight(BlockAdded(self, i.value), foe)
    case Debuff => Fight(self, if i.effect != "" then WithStatus(foe, i.effect, i.value) else foe)
    case OtherKind => Fight(self, foe)
  }

  /** Only the attacking intents touch the player's health or block, and only by way of takeDamage. */
  lemma OnlyAttacksHurt(i: Intent, self: CharState, foe: CharState)
    ensures var r := IntentApplied(i, self, foe);
      (r.foe.health != foe.health || r.foe.block != foe.block) ==>
        KindOf(i.kind) in {Attack, AttackDefend} && r.foe == Damaged(foe, i.value)
    ensures KindOf(i.kind) == OtherKind ==> IntentApplied(i, self, foe) == Fight(self, foe)
  {
  }

  /** The fixed move table of `executeMove`: None for a move id it does not know. */
  function MoveEffect(moveId: string, self: CharState, foe: CharState): (r: Option<Fight>)
    ensures r.Some? <==> moveId in {"chomp", "thrash", "bellow"}
    ensures moveId == "chomp" ==> r == Some(Fight(self, Damaged(foe, 11)))
    ensures WellFormed(self) && WellFormed(foe) && r.Some? ==> WellFormed(r.value.self) && WellFormed(r.value.foe)
  {
    if moveId == "chomp" then Some(Fight(self, Damaged(foe, 11)))
    else if moveId == "thrash" then Some(Fight(BlockAdded(self, 5), Damaged(foe, 7)))
    else if moveId == "bellow" then Some(Fight(BlockAdded(WithStatus(self, "strength", 3), 6), foe))
    else None
  }

  /** "thrash" hits for 7 and blocks 5; "bellow" leaves the player alone and gives 3 strength and 6 block. */
  lemma MoveTable(self: CharState, foe: CharState)
    requires WellFormed(self)
    ensures var r := MoveEffect("thrash", self, foe).value;
      r.foe == Damaged(foe, 7) && r.self.block == self.block + 5
    ensures var r := MoveEffect("bellow", self, foe).value;
      r.foe == foe && r.self.block == self.block + 6 &&
      StatusCount(r.self.status, "strength") == Max(0, StatusCount(self.status, "strength") + 3)
  {
  }

  /** `addPossibleMove` on a list: a move id already present is not added again. */
  function WithMove(moves: seq<string>, m: string): (r: seq<string>)
    ensures NoDuplicates(moves) ==> NoDuplicates(r)
    ensures m in r && forall x :: x in r <==> x in moves || x == m
    ensures m in moves ==> r == moves
  {
    if m in moves then moves else moves + [m]
  }

  /** Adding each move of `ms` in turn, as the copy loop of `cloneEnemy` does. */
  function WithMoves(moves: seq<string>, ms: seq<string>): seq<string>
    decreases |ms|
  {
    if ms == [] then moves else WithMoves(WithMove(moves, ms[0]), ms[1..])
  }

  /** Re-adding a duplicate-free list to an empty list gives that list back. */
  lemma {:induction false} WithMovesDistinct(acc: seq<string>, ms: seq<string>)
    requires NoDuplicates(acc + ms)
    ensures WithMoves(acc, ms) == acc + ms
    decreases |ms|
  {
    if ms != [] {
      forall k | 0 <= k < |acc| ensures acc[k] != ms[0] {
        assert (acc + ms)[k] == acc[k] && (acc + ms)[|acc|] == ms[0];
      }
      assert acc + ms == (acc + [ms[0]]) + ms[1..];
      WithMovesDistinct(acc + [ms[0]], ms[1..]);
    }
  }

  class Enemy {
    const id: string
    const name: string
    const ch: Character
    var intent: Intent
    var moves: seq<string>
    var moveIntents: map<string, Intent>
    var elite: bool
    var boss: bool
    var minGold: int
    var maxGold: int

    ghost predicate Valid()
      reads this, ch
    {
      ch.Valid() && NoDuplicates(moves)
    }

    /** A new enemy has no energy, no moves, a default intent and a gold range of 10 to 20. */
    constructor (id: string, name: string, maxHealth: int)
      ensures Valid() && fresh(ch)
      ensures ch.State() == CharState(maxHealth, maxHealth, 0, 0, 0, map[])
      ensures this.id == id && this.name == name
      ensures intent == NoIntent && moves == [] && moveIntents == map[]
      ensures !elite && !boss && minGold == 10 && maxGold == 20
    {
      this.id := id;
      this.name := name;
      ch := new Character(maxHealth, 0);
      intent := NoIntent;
      moves := [];
      moveIntents := map[];
      elite := false;
      boss := false;
      minGold := 10;
      maxGold := 20;
    }

    method SetGoldReward(min: int, max: int)
      modifies this`minGold, this`maxGold
      ensures minGold == min && maxGold == max
    {
      minGold := min;
      maxGold := max;
    }

    /** No gold while the enemy lives; once it is dead, some amount in [minGold, maxGold]
        (the clock-seeded uniform draw). */
    method RollGoldReward() returns (gold: int)
      ensures ch.IsAlive() ==> gold == 0
      ensures !ch.IsAlive() && minGold <= maxGold ==> minGold <= gold <= maxGold
    {
      if ch.IsAlive() {
        return 0;
      }
      if minGold <= maxGold {
        gold :| minGold <= gold <= maxGold;
      } else {
        gold := minGold;
      }
    }

    /** The intent announced for move `m` when `before` was announced last: the move's stored
        intent, or, for a move without one, `before` relabelled as an unknown move at the player for 0. */
    function IntentFor(m: string, before: Intent): (r: Intent)
      reads this
      ensures m in moveIntents ==> r == moveIntents[m]
      ensures m !in moveIntents ==> r.kind == "unknown" && r.value == 0 && r.effect == before.effect
    {
      if m in moveIntents then moveIntents[m] else Unknown(before)
    }

    /** The intent is the one announced after `before` by `chooseNextMove`: an unknown move when
        there are no moves, otherwise the intent of one of them. */
    ghost predicate Announced(before: Intent)
      reads this
      ensures Announced(before) ==>
                intent.kind == "unknown" || exists m :: m in moves && m in moveIntents && intent == moveIntents[m]
    {
      if moves == [] then intent == Unknown(before)
      else exists k :: 0 <= k < |moves| && intent == IntentFor(moves[k], before)
    }

    /** Picks one of the moves at random and announces its intent. */
    method ChooseNextMove()
      modifies this`intent
      ensures Announced(old(intent))
    {
      if moves == [] {
        intent := Unknown(intent);
        return;
      }
      var k :| 0 <= k < |moves|;
      intent := IntentFor(moves[k], intent);
    }

    /** The enemy's turn against the player's character: nothing happens when the enemy is dead
        or there is no player; otherwise the intent is carried out. */
    method TakeTurn(player: Character?)
      requires ch.Valid()
      requires player != null ==> player.Valid() && player != ch
      modifies ch, player
      ensures ch.Valid()
      ensures player != null ==> player.Valid()
      ensures player == null || !old(ch.IsAlive()) ==>
                ch.State() == old(ch.State()) && (player != null ==> player.State() == old(player.State()))
      ensures player != null && old(ch.IsAlive()) ==>
                Fight(ch.State(), player.State()) == IntentApplied(intent, old(ch.State()), old(player.State()))
    {
      if !ch.IsAlive() || player == null {
        return;
      }
      match KindOf(intent.kind) {
        case Attack =>
          var _ := player.TakeDamage(intent.value);
        case AttackDefend =>
          var _ := player.TakeDamage(intent.value);
          ch.AddBlock(intent.secondaryValue);
        case Buff =>
          if intent.effect != "" {
            ch.AddStatusEffect(intent.effect, intent.value);
          }
          if intent.secondaryValue > 0 {
            ch.AddBlock(intent.secondaryValue);
          }
        case Defend =>
          ch.AddBlock(intent.value);
        case Debuff =>
          if intent.effect != "" {
            player.AddStatusEffect(intent.effect, intent.value);
          }
        case OtherKind =>
      }
    }

    /** Adds a move id unless it is already in the list. */
    method AddPossibleMove(m: string)
      requires Valid()
      modifies this`moves
      ensures Valid()
      ensures moves == WithMove(old(moves), m)
    {
      if m !in moves {
        moves := moves + [m];
      }
    }

    /** `addPossibleMove` for each id of `ms` in turn. */
    method AddPossibleMoves(ms: seq<string>)
      requires Valid()
      modifies this`moves
      ensures Valid()
      ensures moves == WithMoves(old(moves), ms)
    {
      for i := 0 to |ms|
        invariant Valid()
        invariant moves == WithMoves(old(moves), ms[..i])
      {
        WithMovesSnoc(old(moves), ms[..i], ms[i]);
        assert ms[..i + 1] == ms[..i] + [ms[i]];
        AddPossibleMove(ms[i]);
      }
      assert ms[..|ms|] == ms;
    }

    /** One of the fixed moves, applied to this enemy and the player's character; an unknown
        move id or an absent player does nothing and fails. */
    method ExecuteMove(moveId: string, player: Character?) returns (ok: bool)
      requires Valid()
      requires player != null ==> player.Valid() && player != ch
      modifies ch, player
      ensures Valid()
      ensures player != null ==> player.Valid()
      ensures ok <==> player != null && MoveEffect(moveId, old(ch.State()), old(player.State())).Some?
      ensures ok ==> Fight(ch.State(), player.State()) == MoveEffect(moveId, old(ch.State()), old(player.State())).value
      ensures !ok ==> ch.State() == old(ch.State()) && (player != null ==> player.State() == old(player.State()))
    {
      if player == null {
        return false;
      }
      if moveId == "chomp" {
        var _ := player.TakeDamage(11);
        return true;
      } else if moveId == "thrash" {
        var _ := player.TakeDamage(7);
        ch.AddBlock(5);
        return true;
      } else if moveId == "bellow" {
        ch.AddStatusEffect("strength", 3);
        ch.AddBlock(6);
        return true;
      }
      return false;
    }

    /** A fresh enemy with the same numbers, moves, intent table, flags and gold range. The copy's
        health goes through setHealth, its block through addBlock and each status effect through
        addStatusEffect; its energy is 0 and its announced intent is the default one. */
    method CloneEnemy() returns (e: Enemy)
      requires Valid()
      ensures fresh(e) && fresh(e.ch) && e.Valid()
      ensures e.id == id && e.name == name && e.elite == elite && e.boss == boss
      ensures e.minGold == minGold && e.maxGold == maxGold
      ensures e.moves == moves && e.moveIntents == moveIntents && e.intent == NoIntent
      ensures e.ch.State() == ch.State().(health := Min(Max(0, ch.health), ch.maxHealth), energy := 0, baseEnergy := 0)
    {
      e := new Enemy(id, name, ch.maxHealth);
      e.elite := elite;
      e.boss := boss;
      e.SetGoldReward(minGold, maxGold);
      e.AddPossibleMoves(moves);
      WithMovesDistinct([], moves);
      e.moveIntents := moveIntents;
      ghost var fields := (e.id, e.name, e.elite, e.boss, e.minGold, e.maxGold, e.moves, e.moveIntents, e.intent);
      e.ch.SetHealth(ch.health);
      e.ch.AddBlock(ch.block);
      CopyStatus(e.ch);
      assert (e.id, e.name, e.elite, e.boss, e.minGold, e.maxGold, e.moves, e.moveIntents, e.intent) == fields;
    }

    /** Adds each of this enemy's status effects to `target`, whose table starts empty, in some order. */
    method CopyStatus(target: Character)
      requires ch.Valid() && target.Valid() && target.status == map[] && target != ch
      modifies target
      ensures target.Valid()
      ensures target.State() == old(target.State()).(status := ch.status)
    {
      var rest := ch.status.Keys;
      while rest != {}
        invariant rest <= ch.status.Keys && target.Valid()
        invariant target.State() == old(target.State()).(status := target.status)
        invariant target.status == map k | k in ch.status && k !in rest :: ch.status[k]
        decreases rest
      {
        var k :| k in rest;
        target.AddStatusEffect(k, ch.status[k]);
        rest := rest - {k};
      }
    }
  }

  /** The intent `chooseNextMove` sets when it has nothing better: only the type, value and
      target are overwritten. */
  function Unknown(i: Intent): (r: Intent)
    ensures r.kind == "unknown" && r.value == 0 && r.target == "player"
    ensures r.secondaryValue == i.secondaryValue && r.effect == i.effect
  {
    i.(kind := "unknown", value := 0, target := "player")
  }

  lemma WithMovesSnoc(acc: seq<string>, ms: seq<string>, m: string)
    ensures WithMoves(acc, ms + [m]) == WithMove(WithMoves(acc, ms), m)
    decreases |ms|
  {
    if ms != [] {
      assert (ms + [m])[1..] == ms[1..] + [m];
      WithMovesSnoc(WithMove(acc, ms[0]), ms[1..], m);
    } else {
      assert [m][1..] == [];
    }
  }
}
