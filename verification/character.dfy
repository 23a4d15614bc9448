/** The numeric rules shared by every combatant: health, block, energy and
    a table of status-effect stacks (src/core/character.cpp). The rules are
    stated once, on the value `CharState`; the class `Character` holds the
    same fields and each of its methods is proved to move its state exactly
    as the matching function says. */
module Characters {
  import opened Basics

  /** A snapshot of a Character's fields. */
  datatype CharState = CharState(
    maxHealth: int,
    health: int,
    block: int,
    baseEnergy: int,
    energy: int,
    status: map<string, int>)

  /** Every stored status count is positive: a count that drops to 0 or below is erased. */
  predicate AllPositive(m: map<string, int>) {
    forall k :: k in m ==> m[k] > 0
  }

  /** What every Character keeps: block never negative, status counts positive. */
  predicate WellFormed(s: CharState) {
    s.block >= 0 && AllPositive(s.status)
  }

  predicate HealthInRange(s: CharState) {
    0 <= s.health <= s.maxHealth
  }

  /** getStatusEffect: the stored count, 0 when absent. */
  function StatusCount(m: map<string, int>, effect: string): int {
    if effect in m then m[effect] else 0
  }

  /** addStatusEffect on the table: 0 stacks changes nothing, a new key is stored
      only with positive stacks, an existing key is summed and erased at 0 or below. */
  function StatusAdded(m: map<string, int>, effect: string, stacks: int): (r: map<string, int>)
    ensures AllPositive(m) ==> AllPositive(r)
    ensures AllPositive(m) ==> StatusCount(r, effect) == Max(0, StatusCount(m, effect) + stacks)
    ensures forall k :: k in m && k != effect ==> k in r && r[k] == m[k]
    ensures forall k :: k in r && k != effect ==> k in m
  {
    if stacks == 0 then m
    else if effect !in m then (if stacks > 0 then m[effect := stacks] else m)
    else if m[effect] + stacks <= 0 then m - {effect}
    else m[effect := m[effect] + stacks]
  }

  /** takeDamage: block absorbs first, the rest comes off health, floored at 0. */
  function Damaged(s: CharState, amount: int): (r: CharState)
    ensures amount <= 0 ==> r == s
    ensures amount > 0 && s.block >= 0 ==> r.block == Max(0, s.block - amount)
    ensures amount > 0 && s.block >= 0 && s.health >= 0 ==>
              r.health == Max(0, s.health - Max(0, amount - s.block))
    ensures r.maxHealth == s.maxHealth && r.baseEnergy == s.baseEnergy
    ensures r.energy == s.energy && r.status == s.status
    ensures r.health <= s.health || r.health == 0
    ensures WellFormed(s) ==> WellFormed(r)
    ensures HealthInRange(s) ==> HealthInRange(r)
  {
    if amount <= 0 then s
    else
      var used := if s.block > 0 then Min(s.block, amount) else 0;
      var remaining := amount - used;
      var absorbed := s.(block := s.block - used);
      if remaining > 0 then absorbed.(health := Max(0, absorbed.health - remaining)) else absorbed
  }

  /** heal: refused for a non-positive amount or a dead character, otherwise capped at maxHealth. */
  function Healed(s: CharState, amount: int): (r: CharState)
    ensures amount <= 0 || s.health <= 0 ==> r == s
    ensures r == s.(health := r.health)
    ensures HealthInRange(s) ==> HealthInRange(r)
    ensures amount > 0 && 0 < s.health <= s.maxHealth ==>
              s.health <= r.health <= s.health + amount &&
              (r.health == s.health + amount || r.health == s.maxHealth)
  {
    if amount <= 0 || s.health <= 0 then s
    else s.(health := Min(s.maxHealth, s.health + amount))
  }

  /** addBlock: non-positive amounts are ignored. */
  function BlockAdded(s: CharState, amount: int): (r: CharState)
    ensures r == s.(block := r.block)
    ensures r.block == s.block + Max(0, amount)
    ensures WellFormed(s) ==> WellFormed(r)
  {
    if amount > 0 then s.(block := s.block + amount) else s
  }

  function WithStatus(s: CharState, effect: string, stacks: int): (r: CharState)
    ensures r == s.(status := r.status)
    ensures WellFormed(s) ==> WellFormed(r)
    ensures WellFormed(s) ==> StatusCount(r.status, effect) == Max(0, StatusCount(s.status, effect) + stacks)
  {
    s.(status := StatusAdded(s.status, effect, stacks))
  }

  /** startTurn: p stacks of poison deal p damage, then one stack wears off. */
  function TurnStarted(s: CharState): (r: CharState)
    ensures "poison" !in s.status ==> r == s
    ensures WellFormed(s) ==> WellFormed(r)
    ensures HealthInRange(s) ==> HealthInRange(r)
    ensures WellFormed(s) && "poison" in s.status ==>
              StatusCount(r.status, "poison") == s.status["poison"] - 1 &&
              r.block == Max(0, s.block - s.status["poison"]) &&
              (s.health >= 0 ==> r.health == Max(0, s.health - Max(0, s.status["poison"] - s.block)))
  {
    if "poison" in s.status then
      var hit := Damaged(s, s.status["poison"]);
      WithStatus(hit, "poison", -1)
    else s
  }

  /** endTurn: temporary strength t is taken back off strength and removed. */
  function TurnEnded(s: CharState): (r: CharState)
    ensures "temporary_strength" !in s.status ==> r == s
    ensures r == s.(status := r.status)
    ensures WellFormed(s) ==> WellFormed(r)
    ensures WellFormed(s) && "temporary_strength" in s.status ==>
              "temporary_strength" !in r.status &&
              StatusCount(r.status, "strength") ==
                Max(0, StatusCount(s.status, "strength") - s.status["temporary_strength"])
  {
    if "temporary_strength" in s.status then
      var t := s.status["temporary_strength"];
      WithStatus(WithStatus(s, "strength", -t), "temporary_strength", -t)
    else s
  }

  /** Health stays within [0, maxHealth] across any sequence of takeDamage and heal. */
  lemma {:induction false} HealthStaysInRange(s: CharState, hits: seq<(bool, int)>)
    requires HealthInRange(s)
    ensures HealthInRange(ApplyAll(s, hits))
    decreases |hits|
  {
    if hits != [] {
      var (isHeal, amount) := hits[0];
      var next := if isHeal then Healed(s, amount) else Damaged(s, amount);
      HealthStaysInRange(next, hits[1..]);
    }
  }

  /** Applies a sequence of heals (true) and hits (false) in order. */
  function ApplyAll(s: CharState, hits: seq<(bool, int)>): CharState
    decreases |hits|
  {
    if hits == [] then s
    else
      var (isHeal, amount) := hits[0];
      ApplyAll(if isHeal then Healed(s, amount) else Damaged(s, amount), hits[1..])
  }

  class Character {
    var maxHealth: int
    var health: int
    var block: int
    const baseEnergy: int
    var energy: int
    var status: map<string, int>

    ghost function State(): CharState
      reads this
    {
      CharState(maxHealth, health, block, baseEnergy, energy, status)
    }

    ghost predicate Valid()
      reads this
    {
      WellFormed(State())
    }

    /** A new character starts at full health, with no block, no energy and no effects. */
    constructor (maxHealth: int, baseEnergy: int)
      ensures Valid()
      ensures State() == CharState(maxHealth, maxHealth, 0, baseEnergy, 0, map[])
    {
      this.maxHealth := maxHealth;
      this.health := maxHealth;
      this.block := 0;
      this.baseEnergy := baseEnergy;
      this.energy := 0;
      this.status := map[];
    }

    method SetHealth(h: int)
      requires Valid()
      modifies this
      ensures Valid()
      ensures State() == old(State()).(health := Min(Max(0, h), maxHealth))
      ensures maxHealth >= 0 ==> HealthInRange(State())
    {
      health := Min(Max(0, h), maxHealth);
    }

    method SetMaxHealth(m: int)
      requires Valid()
      modifies this
      ensures Valid()
      ensures State() == old(State()).(maxHealth := Max(1, m), health := Min(old(health), Max(1, m)))
      ensures old(health) >= 0 ==> HealthInRange(State())
    {
      maxHealth := Max(1, m);
      health := Min(health, maxHealth);
    }

    predicate IsAlive()
      reads this
      ensures IsAlive() <==> State().health > 0
    {
      health > 0
    }

    /** Returns the requested amount (not the health actually lost), 0 when it is not positive. */
    method TakeDamage(amount: int) returns (r: int)
      requires Valid()
      modifies this
      ensures Valid()
      ensures State() == Damaged(old(State()), amount)
      ensures r == if amount <= 0 then 0 else amount
    {
      if amount <= 0 {
        return 0;
      }
      var remaining := amount;
      if block > 0 {
        var used := Min(block, remaining);
        block := block - used;
        remaining := remaining - used;
      }
      if remaining > 0 {
        health := Max(0, health - remaining);
      }
      r := amount;
    }

    /** Returns the health actually gained. */
    method Heal(amount: int) returns (r: int)
      requires Valid()
      modifies this
      ensures Valid()
      ensures State() == Healed(old(State()), amount)
      ensures r == health - old(health)
    {
      if amount <= 0 || !IsAlive() {
        return 0;
      }
      var before := health;
      health := Min(maxHealth, health + amount);
      r := health - before;
    }

    method AddBlock(amount: int)
      requires Valid()
      modifies this
      ensures Valid()
      ensures State() == BlockAdded(old(State()), amount)
    {
      if amount > 0 {
        block := block + amount;
      }
    }

    method ResetBlock()
      requires Valid()
      modifies this
      ensures Valid()
      ensures State() == old(State()).(block := 0)
    {
      block := 0;
    }

    method SetEnergy(e: int)
      requires Valid()
      modifies this
      ensures Valid()
      ensures State() == old(State()).(energy := Max(0, e))
    {
      energy := Max(0, e);
    }

    /** Spending is atomic: either the whole amount is taken or nothing changes. */
    method UseEnergy(amount: int) returns (ok: bool)
      requires Valid()
      modifies this
      ensures Valid()
      ensures ok <==> amount <= 0 || old(energy) >= amount
      ensures State() == old(State()).(energy := if amount > 0 && ok then old(energy) - amount else old(energy))
    {
      if amount <= 0 {
        return true;
      }
      if energy >= amount {
        energy := energy - amount;
        return true;
      }
      return false;
    }

    method ResetEnergy()
      requires Valid()
      modifies this
      ensures Valid()
      ensures State() == old(State()).(energy := baseEnergy)
    {
      energy := baseEnergy;
    }

    method AddStatusEffect(effect: string, stacks: int)
      requires Valid()
      modifies this
      ensures Valid()
      ensures State() == WithStatus(old(State()), effect, stacks)
    {
      if stacks == 0 {
        return;
      }
      if effect !in status {
        if stacks > 0 {
          status := status[effect := stacks];
        }
      } else {
        var sum := status[effect] + stacks;
        if sum <= 0 {
          status := status - {effect};
        } else {
          status := status[effect := sum];
        }
      }
    }

    function GetStatusEffect(effect: string): (r: int)
      reads this
      ensures effect !in status ==> r == 0
      ensures Valid() ==> r >= 0 && (r > 0 <==> effect in status)
    {
      StatusCount(status, effect)
    }

    predicate HasStatusEffect(effect: string)
      reads this
      ensures Valid() ==> (HasStatusEffect(effect) <==> GetStatusEffect(effect) > 0)
    {
      effect in status
    }

    method StartTurn()
      requires Valid()
      modifies this
      ensures Valid()
      ensures State() == TurnStarted(old(State()))
    {
      if HasStatusEffect("poison") {
        var poison := GetStatusEffect("poison");
        var _ := TakeDamage(poison);
        AddStatusEffect("poison", -1);
      }
    }

    method EndTurn()
      requires Valid()
      modifies this
      ensures Valid()
      ensures State() == TurnEnded(old(State()))
    {
      if HasStatusEffect("temporary_strength") {
        var t := GetStatusEffect("temporary_strength");
        AddStatusEffect("strength", -t);
        AddStatusEffect("temporary_strength", -t);
      }
    }

    /** An independent copy carrying the same numbers and effects. */
    method Clone() returns (c: Character)
      requires Valid()
      ensures fresh(c) && c.Valid()
      ensures c.State() == State()
    {
      c := new Character(maxHealth, baseEnergy);
      c.health := health;
      c.block := block;
      c.energy := energy;
      c.status := status;
    }
  }
}
