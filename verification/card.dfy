/** A playable card (src/core/card.cpp): its kind, its target category, an
    energy cost that is never set below zero and a one-shot upgrade. How a
    card is played against a player and a roster of enemies is in CardPlay. */
module Cards {
  import opened Basics

  datatype CardType = Attack | Skill | Power | Status | Curse

  datatype CardRarity = Common | Uncommon | Rare | Special | Basic

  /** NONE and SELF of the source are spelled NoTarget and SelfTarget. */
  datatype CardTarget = NoTarget | SelfTarget | SingleEnemy | AllEnemies | SingleAlly | AllAllies

  class Card {
    const id: string
    const name: string
    const cardType: CardType
    const rarity: CardRarity
    const target: CardTarget
    const upgradable: bool
    var cost: int
    var upgraded: bool
    var classRestriction: string

    /** The cost is stored as given; only setCost clamps it. */
    constructor (id: string, name: string, cardType: CardType, rarity: CardRarity,
                 target: CardTarget, cost: int, upgradable: bool)
      ensures this.id == id && this.name == name && this.cardType == cardType
      ensures this.rarity == rarity && this.target == target && this.upgradable == upgradable
      ensures this.cost == cost && !upgraded && classRestriction == ""
    {
      this.id := id;
      this.name := name;
      this.cardType := cardType;
      this.rarity := rarity;
      this.target := target;
      this.upgradable := upgradable;
      this.cost := cost;
      this.upgraded := false;
      this.classRestriction := "";
    }

    method SetCost(c: int)
      modifies this
      ensures cost == Max(0, c) && cost >= 0
      ensures upgraded == old(upgraded) && classRestriction == old(classRestriction)
    {
      cost := Max(0, c);
    }

    /** Succeeds once: only an upgradable card that is not yet upgraded, and it then costs one less (never below 0). */
    method Upgrade() returns (ok: bool)
      modifies this
      ensures ok <==> old(upgradable && !upgraded)
      ensures upgradable ==> upgraded
      ensures ok ==> cost == (if old(cost) > 0 then old(cost) - 1 else old(cost))
      ensures !ok ==> cost == old(cost) && upgraded == old(upgraded)
      ensures classRestriction == old(classRestriction)
    {
      if !upgradable || upgraded {
        return false;
      }
      upgraded := true;
      if cost > 0 {
        cost := cost - 1;
      }
      return true;
    }

    predicate NeedsTarget()
      ensures NeedsTarget() <==> target == SingleEnemy
    {
      target == SingleEnemy
    }

    method SetClassRestriction(className: string)
      modifies this
      ensures classRestriction == className
      ensures cost == old(cost) && upgraded == old(upgraded)
    {
      classRestriction := className;
    }

    /** `playerClass` is the class string of the player, None for an absent player. */
    predicate CanUse(playerClass: Option<string>)
      reads this
    {
      playerClass.Some? &&
      (classRestriction == "" || classRestriction == "ALL" || playerClass.value == classRestriction)
    }
  }
}
