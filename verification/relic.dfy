/** A relic (src/core/relic.cpp): a counter and a set of hooks. Only Burning
    Blood does anything at the end of a won combat; every other hook leaves
    the game unchanged and the damage hooks pass the amount through. */
module Relics {
  import opened Characters

  datatype RelicRarity = Starter | Common | Uncommon | Rare | Boss | Shop | Event

  /** The amount Burning Blood heals after a victory. */
  const BurningBloodHeal := 6

  class Relic {
    const id: string
    const name: string
    const rarity: RelicRarity
    var counter: int

    constructor (id: string, name: string, rarity: RelicRarity)
      ensures this.id == id && this.name == name && this.rarity == rarity
      ensures counter == 0
    {
      this.id := id;
      this.name := name;
      this.rarity := rarity;
      this.counter := 0;
    }

    method SetCounter(c: int)
      modifies this
      ensures counter == c
    {
      counter := c;
    }

    /** Adds `amount` and returns the new counter. */
    method IncrementCounter(amount: int) returns (r: int)
      modifies this
      ensures counter == old(counter) + amount
      ensures r == counter
    {
      counter := counter + amount;
      r := counter;
    }

    method ResetCounter()
      modifies this
      ensures counter == 0
    {
      counter := 0;
    }

    /** The hooks a relic is given on pickup, at combat start and at each turn boundary do nothing. */
    method OnObtain(owner: Character?)
      ensures counter == old(counter)
    {
    }

    method OnCombatStart(owner: Character?)
      ensures counter == old(counter)
    {
    }

    method OnTurnStart(owner: Character?)
      ensures counter == old(counter)
    {
    }

    method OnTurnEnd(owner: Character?)
      ensures counter == old(counter)
    {
    }

    /** Incoming damage passes through unchanged. */
    function OnTakeDamage(damage: int): (r: int)
      ensures r == damage
    {
      damage
    }

    /** Outgoing damage passes through unchanged. */
    function OnDealDamage(damage: int, targetIndex: int): (r: int)
      ensures r == damage
    {
      damage
    }

    /** Burning Blood heals its owner by 6 after a won combat; nothing else happens here. */
    method OnCombatEnd(owner: Character?, victorious: bool)
      requires owner != null ==> owner.Valid()
      modifies if owner != null then {owner} else {}
      ensures owner != null ==> owner.Valid()
      ensures owner != null ==>
                owner.State() == (if id == "burning_blood" && victorious
                                  then Healed(old(owner.State()), BurningBloodHeal)
                                  else old(owner.State()))
    {
      if id == "burning_blood" && victorious && owner != null {
        var _ := owner.Heal(BurningBloodHeal);
      }
    }

    /** `clone`: a copy that keeps the counter. */
    method Clone() returns (r: Relic)
      ensures fresh(r)
      ensures r.id == id && r.name == name && r.rarity == rarity && r.counter == counter
    {
      r := new Relic(id, name, rarity);
      r.counter := counter;
    }

    /** `cloneRelic`: a copy of the same relic whose counter starts again at 0. */
    method CloneRelic() returns (r: Relic)
      ensures fresh(r)
      ensures r.id == id && r.name == name && r.rarity == rarity && r.counter == 0
    {
      r := new Relic(id, name, rarity);
    }
  }
}
