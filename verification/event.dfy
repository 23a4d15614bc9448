/** Map events (src/core/event.cpp, include/core/event.h): a list of choices, each with a gold
    and a health requirement and a list of effects applied to the player in order. The game
    the event reports to is present or absent (`hasGame`); what it does for card, relic and
    upgrade effects is not part of this model. */
module Events {
  import opened Basics
  import opened Characters
  import opened Players

  datatype EventEffect = EventEffect(effectType: string, value: int, target: string)

  datatype EventChoice = EventChoice(text: string, goldCost: int, healthCost: int,
                                     effects: seq<EventEffect>, resultText: string)

  /** The effect type strings `processChoice` recognises; anything else is `Unrecognised`. */
  datatype EffectKind = GainGold | LoseGold | GainHealth | LoseHealth | RaiseMaxHealth
                      | AddCard | RemoveCard | AddRelic | RandomRelic | UpgradeCard | Unrecognised

  function KindOf(t: string): (k: EffectKind)
    ensures k == GainGold <==> t == "GAIN_GOLD"
    ensures k == LoseGold <==> t == "LOSE_GOLD"
    ensures k == GainHealth <==> t == "GAIN_HEALTH"
    ensures k == LoseHealth <==> t == "LOSE_HEALTH"
    ensures k == RaiseMaxHealth <==> t == "INCREASE_MAX_HEALTH"
    ensures k == AddCard <==> t == "ADD_CARD"
    ensures k == RemoveCard <==> t == "REMOVE_CARD"
    ensures k == AddRelic <==> t == "ADD_RELIC"
    ensures k == RandomRelic <==> t == "RANDOM_RELIC"
    ensures k == UpgradeCard <==> t == "UPGRADE_CARD"
  {
    if t == "GAIN_GOLD" then GainGold
    else if t == "LOSE_GOLD" then LoseGold
    else if t == "GAIN_HEALTH" then GainHealth
    else if t == "LOSE_HEALTH" then LoseHealth
    else if t == "INCREASE_MAX_HEALTH" then RaiseMaxHealth
    else if t == "ADD_CARD" then AddCard
    else if t == "REMOVE_CARD" then RemoveCard
    else if t == "ADD_RELIC" then AddRelic
    else if t == "RANDOM_RELIC" then RandomRelic
    else if t == "UPGRADE_CARD" then UpgradeCard
    else Unrecognised
  }

  /** A choice is offered when its positive gold cost and positive health cost are both met. */
  predicate Affordable(c: EventChoice, gold: int, health: int) {
    (c.goldCost <= 0 || gold >= c.goldCost) && (c.healthCost <= 0 || health >= c.healthCost)
  }

  /** `getAvailableChoices` for a player with `gold` and `health`. */
  function Affordables(cs: seq<EventChoice>, gold: int, health: int): (r: seq<EventChoice>)
    ensures |r| <= |cs|
  {
    if cs == [] then []
    else
      var last := cs[|cs| - 1];
      Affordables(cs[..|cs| - 1], gold, health) + (if Affordable(last, gold, health) then [last] else [])
  }

  /** Exactly the affordable choices are offered. */
  lemma {:induction false} AffordablesMembers(cs: seq<EventChoice>, gold: int, health: int)
    ensures forall c :: c in Affordables(cs, gold, health) <==> c in cs && Affordable(c, gold, health)
  {
    if cs != [] {
      AffordablesMembers(cs[..|cs| - 1], gold, health);
      assert cs == cs[..|cs| - 1] + [cs[|cs| - 1]];
    }
  }

  /** The offered choices keep their original order: filtering distributes over concatenation. */
  lemma {:induction false} AffordablesAppend(a: seq<EventChoice>, b: seq<EventChoice>, gold: int, health: int)
    ensures Affordables(a + b, gold, health) == Affordables(a, gold, health) + Affordables(b, gold, health)
  {
    if b == [] {
      assert a + b == a;
    } else {
      var init := b[..|b| - 1];
      AffordablesAppend(a, init, gold, health);
      assert (a + b)[..|a + b| - 1] == a + init;
      assert (a + b)[|a + b| - 1] == b[|b| - 1];
    }
  }

  /** The part of the player an event changes: gold and the character's fields. */
  datatype Side = Side(gold: int, ch: CharState)

  /** One effect on the player. LOSE_GOLD goes through `addGold(-value)`, which ignores a
      non-positive amount. Card, relic and upgrade effects act through the game. */
  function EffectApplied(e: EventEffect, s: Side): (r: Side)
    ensures r.gold >= s.gold
    ensures !TouchesGold(e) ==> r.gold == s.gold
    ensures TouchesGold(e) ==> r.ch == s.ch
    ensures !TouchesCharacter(e) ==> r.ch == s.ch
  {
    match KindOf(e.effectType)
    case GainGold => s.(gold := s.gold + Max(0, e.value))
    case LoseGold => s.(gold := s.gold + Max(0, -e.value))
    case GainHealth => s.(ch := Healed(s.ch, e.value))
    case LoseHealth => s.(ch := Damaged(s.ch, e.value))
    case RaiseMaxHealth => s.(ch := MaxHealthRaised(s.ch, e.value))
    case _ => s
  }

  /** The effect types that change the gold: GAIN_GOLD and LOSE_GOLD. */
  predicate TouchesGold(e: EventEffect) {
    KindOf(e.effectType) == GainGold || KindOf(e.effectType) == LoseGold
  }

  /** The effect types that change the character: GAIN_HEALTH, LOSE_HEALTH and INCREASE_MAX_HEALTH. */
  predicate TouchesCharacter(e: EventEffect) {
    KindOf(e.effectType) == GainHealth || KindOf(e.effectType) == LoseHealth || KindOf(e.effectType) == RaiseMaxHealth
  }

  /** The effects of a choice, applied in list order. */
  function EffectsApplied(es: seq<EventEffect>, s: Side): (r: Side)
    ensures (forall k :: 0 <= k < |es| ==> !TouchesGold(es[k])) ==> r.gold == s.gold
    ensures (forall k :: 0 <= k < |es| ==> !TouchesCharacter(es[k])) ==> r.ch == s.ch
  {
    if es == [] then s else EffectApplied(es[|es| - 1], EffectsApplied(es[..|es| - 1], s))
  }

  /** Applying two lists one after the other is applying their concatenation. */
  lemma {:induction false} EffectsCompose(a: seq<EventEffect>, b: seq<EventEffect>, s: Side)
    ensures EffectsApplied(a + b, s) == EffectsApplied(b, EffectsApplied(a, s))
  {
    if b == [] {
      assert a + b == a;
    } else {
      var init, last := b[..|b| - 1], b[|b| - 1];
      EffectsCompose(a, init, s);
      assert (a + b)[..|a + b| - 1] == a + init;
      assert (a + b)[|a + b| - 1] == last;
      assert EffectsApplied(a + b, s) == EffectApplied(last, EffectsApplied(a + init, s));
    }
  }

  /** An unrecognised effect type is skipped. */
  lemma UnrecognisedSkipped(e: EventEffect, s: Side)
    requires KindOf(e.effectType) == Unrecognised
    ensures EffectApplied(e, s) == s
  {
  }

  /** LOSE_GOLD with a positive value leaves the gold where it was: the negated amount is
      refused by `addGold`. */
  lemma LoseGoldKeepsGold(e: EventEffect, s: Side)
    requires e.effectType == "LOSE_GOLD" && e.value >= 0
    ensures EffectApplied(e, s).gold == s.gold
  {
  }

  /** Gold never drops, whatever the effects. */
  lemma {:induction false} GoldNeverDrops(es: seq<EventEffect>, s: Side)
    ensures EffectsApplied(es, s).gold >= s.gold
  {
    if es != [] {
      GoldNeverDrops(es[..|es| - 1], s);
    }
  }

  /** Health stays within [0, maxHealth] through every effect. */
  lemma {:induction false} EffectsKeepHealthInRange(es: seq<EventEffect>, s: Side)
    requires HealthInRange(s.ch) && s.ch.maxHealth >= 1
    ensures HealthInRange(EffectsApplied(es, s).ch) && EffectsApplied(es, s).ch.maxHealth >= 1
  {
    if es != [] {
      EffectsKeepHealthInRange(es[..|es| - 1], s);
    }
  }

  /** Where a nullable player may be changed. */
  function Them(p: Player?): set<Player> {
    if p != null then {p} else {}
  }

  function TheirChar(p: Player?): set<Character> {
    if p != null then {p.ch} else {}
  }

  const NoGameText := "Error: Cannot process choice without game instance."
  const InvalidChoiceText := "Invalid choice."
  const NoPlayerText := "Error: Cannot process choice without player."

  class Event {
    const id: string
    const name: string
    const description: string
    var choices: seq<EventChoice>
    var availableChoices: seq<EventChoice>

    constructor (id: string, name: string, description: string)
      ensures this.id == id && this.name == name && this.description == description
      ensures choices == [] && availableChoices == []
    {
      this.id := id;
      this.name := name;
      this.description := description;
      choices := [];
      availableChoices := [];
    }

    /** Without a player every choice is returned and the cache is left alone; otherwise the
        cache is rebuilt with the affordable choices. */
    method GetAvailableChoices(player: Player?) returns (r: seq<EventChoice>)
      modifies this`availableChoices
      ensures player == null ==> r == choices && availableChoices == old(availableChoices)
      ensures player != null ==>
                r == Affordables(choices, player.gold, player.ch.health) && availableChoices == r
    {
      if player == null {
        return choices;
      }
      availableChoices := [];
      for i := 0 to |choices|
        invariant availableChoices == Affordables(choices[..i], player.gold, player.ch.health)
      {
        assert choices[..i + 1][..i] == choices[..i];
        var choice := choices[i];
        var available := true;
        if choice.goldCost > 0 && player.gold < choice.goldCost {
          available := false;
        }
        if choice.healthCost > 0 && player.ch.health < choice.healthCost {
          available := false;
        }
        if available {
          availableChoices := availableChoices + [choice];
        }
      }
      assert choices[..|choices|] == choices;
      return availableChoices;
    }

    /** Applies the effects of choice `choiceIndex` (an index into all choices) to the player,
        in order, and returns the result text, which opens with the choice's own text. */
    method ProcessChoice(choiceIndex: int, hasGame: bool, player: Player?) returns (text: string)
      requires player != null ==> player.Valid()
      modifies Them(player)`gold, TheirChar(player)
      ensures player != null ==> player.Valid()
      ensures !hasGame ==> text == NoGameText
      ensures hasGame && !(0 <= choiceIndex < |choices|) ==> text == InvalidChoiceText
      ensures hasGame && 0 <= choiceIndex < |choices| && player == null ==> text == NoPlayerText
      ensures !hasGame || !(0 <= choiceIndex < |choices|) || player == null ==>
                unchanged(Them(player)) && unchanged(TheirChar(player))
      ensures hasGame && 0 <= choiceIndex < |choices| && player != null ==>
                var choice := choices[choiceIndex];
                Side(player.gold, player.ch.State()) ==
                  EffectsApplied(choice.effects, old(Side(player.gold, player.ch.State()))) &&
                choice.resultText + "\n\n" <= text
    {
      if !hasGame {
        return NoGameText;
      }
      if choiceIndex < 0 || choiceIndex >= |choices| {
        return InvalidChoiceText;
      }
      var choice := choices[choiceIndex];
      if player == null {
        return NoPlayerText;
      }
      text := choice.resultText + "\n\n";
      ghost var start := Side(player.gold, player.ch.State());
      var effects := choice.effects;
      for k := 0 to |effects|
        invariant player.Valid()
        invariant Side(player.gold, player.ch.State()) == EffectsApplied(effects[..k], start)
        invariant choice.resultText + "\n\n" <= text
      {
        assert effects[..k + 1][..k] == effects[..k];
        var line := ApplyEffect(effects[k], player);
        text := text + line;
      }
      assert effects[..|effects|] == effects;
    }
  }

  /** One effect of `processChoice` on the player, with its line of result text. */
  method ApplyEffect(e: EventEffect, player: Player) returns (line: string)
    requires player.Valid()
    modifies player`gold, player.ch
    ensures player.Valid()
    ensures Side(player.gold, player.ch.State()) == EffectApplied(e, old(Side(player.gold, player.ch.State())))
  {
    match KindOf(e.effectType)
    case GainGold =>
      player.AddGold(e.value);
      line := "You gained " + IntToString(e.value) + " gold.\n";
    case LoseGold =>
      player.AddGold(-e.value);
      line := "You lost " + IntToString(e.value) + " gold.\n";
    case GainHealth =>
      var healed := player.ch.Heal(e.value);
      line := "You healed " + IntToString(healed) + " HP.\n";
    case LoseHealth =>
      var _ := player.ch.TakeDamage(e.value);
      line := "You took " + IntToString(e.value) + " damage.\n";
    case RaiseMaxHealth =>
      player.IncreaseMaxHealth(e.value);
      line := "Your max health increased by " + IntToString(e.value) + ".\n";
    case AddCard =>
      line := "You added " + e.target + " to your deck.\n";
    case RemoveCard =>
      line := "You removed a card from your deck.\n";
    case AddRelic =>
      line := "You gained the " + e.target + " relic.\n";
    case RandomRelic =>
      line := "You gained a random relic.\n";
    case UpgradeCard =>
      var upgraded: string :| true;
      line := "You upgraded " + upgraded + ".\n";
    case Unrecognised =>
      line := "";
  }
}
