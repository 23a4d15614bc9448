/** The pure helpers of the windowed interface (src/ui/graphical_ui.cpp): the one-line text of
    an enemy intent and the display name of a card type. Numbers print as `os << int` does. */
module GraphicalUi {
  import opened Basics
  import opened Enemies
  import Cards
  import TextUi

  /** `getCardTypeStringGfx`: its own table, which agrees with the console's. */
  function CardTypeNameGfx(t: Cards.CardType): (r: string)
    ensures r == TextUi.CardTypeName(t)
  {
    match t
    case Attack => "Attack"
    case Skill => "Skill"
    case Power => "Power"
    case Status => "Status"
    case Curse => "Curse"
  }

  /** " (effect +value)" after "Buff" or "Debuff" when the intent names an effect. */
  function EffectNote(i: Intent): string {
    if i.effect == "" then "" else " (" + i.effect + " +" + IntToString(i.value) + ")"
  }

  /** The debuff part of "attack_debuff" and "defend_debuff": the effect and, when positive,
      the secondary value; a bare ", Debuff" without an effect. */
  function DebuffNote(i: Intent): string {
    if i.effect == "" then ", Debuff"
    else ", Debuff (" + i.effect + (if i.secondaryValue > 0 then " " + IntToString(i.secondaryValue) else "") + ")"
  }

  /** `getEnemyIntentStringGfx`. */
  function IntentText(i: Intent): (r: string)
    ensures i.kind == "buff" ==> "Buff" <= r
    ensures i.kind == "debuff" ==> "Debuff" <= r
    ensures r == "" <==> i.kind == "" && i.value <= 0
  {
    var v := IntToString(i.value);
    if i.kind == "attack" then "Attack: " + v
    else if i.kind == "attack_defend" then "Attack: " + v + ", Defend: " + IntToString(i.secondaryValue)
    else if i.kind == "defend" then "Defend: " + v
    else if i.kind == "buff" then "Buff" + EffectNote(i)
    else if i.kind == "debuff" then "Debuff" + EffectNote(i)
    else if i.kind == "attack_debuff" then "Attack: " + v + DebuffNote(i)
    else if i.kind == "defend_debuff" then "Defend: " + v + DebuffNote(i)
    else i.kind + (if i.value > 0 then " (" + v + ")" else "")
  }

  /** The intents that show an attack open with "Attack: ", and for a plain attack the rest of
      the text reads back as the attack value. */
  lemma AttackShown(i: Intent)
    requires i.kind in {"attack", "attack_defend", "attack_debuff"}
    ensures "Attack: " <= IntentText(i)
    ensures i.kind == "attack" ==> ParseInt(IntentText(i)[8..]) == i.value
  {
    if i.kind == "attack" {
      assert IntentText(i)[8..] == IntToString(i.value);
      IntToStringRoundTrip(i.value);
    }
  }

  /** The intents that show a block open with "Defend: ", and for a plain defend the rest of
      the text reads back as the block value. */
  lemma DefendShown(i: Intent)
    requires i.kind in {"defend", "defend_debuff"}
    ensures "Defend: " <= IntentText(i)
    ensures i.kind == "defend" ==> ParseInt(IntentText(i)[8..]) == i.value
  {
    if i.kind == "defend" {
      assert IntentText(i)[8..] == IntToString(i.value);
      IntToStringRoundTrip(i.value);
    }
  }

  /** A buff or debuff intent is the bare word exactly when it names no effect. */
  lemma BuffNoteIffEffect(i: Intent)
    requires i.kind == "buff" || i.kind == "debuff"
    ensures IntentText(i) == (if i.kind == "buff" then "Buff" else "Debuff") <==> i.effect == ""
  {
    if i.effect != "" {
      assert |EffectNote(i)| > 0;
    }
  }

  /** For "attack_debuff" and "defend_debuff": the attack or block value, then the debuff part.
      Without an effect that part is ", Debuff"; with one, it is the effect name in brackets,
      alone exactly when the secondary value is not positive. */
  lemma DebuffNoteShown(i: Intent)
    requires i.kind == "attack_debuff" || i.kind == "defend_debuff"
    ensures IntentText(i) == (if i.kind == "attack_debuff" then "Attack: " else "Defend: ")
                               + IntToString(i.value) + DebuffNote(i)
    ensures i.effect == "" ==> DebuffNote(i) == ", Debuff"
    ensures i.effect != "" ==> (DebuffNote(i) == ", Debuff (" + i.effect + ")" <==> i.secondaryValue <= 0)
  {
    if i.effect != "" && i.secondaryValue > 0 {
      assert |DebuffNote(i)| > |", Debuff (" + i.effect + ")"|;
    }
  }

  /** Any other intent type is printed as itself, followed by " (value)" exactly when the
      value is positive. */
  lemma OtherKindShown(i: Intent)
    requires i.kind !in {"attack", "attack_defend", "defend", "buff", "debuff", "attack_debuff", "defend_debuff"}
    ensures i.kind <= IntentText(i)
    ensures IntentText(i) == i.kind <==> i.value <= 0
  {
    if i.value > 0 {
      assert |IntentText(i)| > |i.kind|;
    }
  }
}
