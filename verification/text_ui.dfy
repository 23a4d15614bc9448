/** The pure helpers of the console interface (src/ui/text_ui.cpp): centring a line of text and
    the display names of room types, card types, card rarities and relic rarities. */
module TextUi {
  import opened Basics
  import Maps
  import Cards
  import Relics

  /** A byte of a `std::string`: the console measures text in bytes, so a character that
      UTF-8 encodes in several bytes counts several times. */
  newtype Byte = b: int | 0 <= b < 256

  /** The byte of an ASCII space. */
  const Space: Byte := 32

  /** `n` spaces. */
  function Spaces(n: nat): (r: seq<Byte>)
    ensures |r| == n && forall k :: 0 <= k < n ==> r[k] == Space
  {
    seq(n, _ => Space)
  }

  /** `centerString`: half the free width (rounded down) of spaces, then `str`; no padding on the
      right, and `str` itself when it already fills `width`. Widths are counted in bytes. */
  function CenterString(str: seq<Byte>, width: int): (r: seq<Byte>)
    ensures width - |str| <= 0 ==> r == str
    ensures |str| <= |r| <= Max(width, |str|)
    ensures r[|r| - |str|..] == str
    ensures forall k :: 0 <= k < |r| - |str| ==> r[k] == Space
  {
    var padding := width - |str|;
    if padding <= 0 then str else Spaces(padding / 2) + str
  }

  /** The text sits in the middle: the spaces on its left are as many as the free columns left
      on its right, or one fewer. */
  lemma CenterStringBalanced(str: seq<Byte>, width: int)
    requires width > |str|
    ensures var r := CenterString(str, width);
            var left := |r| - |str|;
            var right := width - |r|;
            left <= right <= left + 1
  {
  }

  /** A two-byte character (such as "é" in UTF-8) takes two columns of the width. */
  lemma CenterStringCountsBytes()
    ensures CenterString([0xC3, 0xA9], 6) == [Space, Space, 0xC3, 0xA9]
  {
  }

  /** `getRoomTypeString` (the console's names, which differ from the map's upper-case ones). */
  function RoomTypeName(t: Maps.RoomType): (r: string)
    ensures r != "Unknown Room" && r != ""
  {
    match t
    case Monster => "Monster"
    case Elite => "Elite"
    case Boss => "Boss"
    case Rest => "Rest Site"
    case Event => "Event"
    case Shop => "Shop"
    case Treasure => "Treasure"
  }

  /** `getCardTypeString`. */
  function CardTypeName(t: Cards.CardType): (r: string)
    ensures r != "Unknown" && r != ""
  {
    match t
    case Attack => "Attack"
    case Skill => "Skill"
    case Power => "Power"
    case Status => "Status"
    case Curse => "Curse"
  }

  /** `getCardRarityString`. */
  function CardRarityName(r: Cards.CardRarity): (name: string)
    ensures name != "Unknown" && name != ""
  {
    match r
    case Common => "Common"
    case Uncommon => "Uncommon"
    case Rare => "Rare"
    case Special => "Special"
    case Basic => "Basic"
  }

  /** `getRelicRarityString`. */
  function RelicRarityName(r: Relics.RelicRarity): (name: string)
    ensures name != "Unknown" && name != ""
  {
    match r
    case Starter => "Starter"
    case Common => "Common"
    case Uncommon => "Uncommon"
    case Rare => "Rare"
    case Boss => "Boss"
    case Shop => "Shop"
    case Event => "Event"
  }

  /** Every room type has its own name, and none is the fallback name. */
  lemma RoomTypeNamesDistinct(a: Maps.RoomType, b: Maps.RoomType)
    ensures RoomTypeName(a) == RoomTypeName(b) ==> a == b
    ensures RoomTypeName(a) != "Unknown Room"
  {
  }

  /** Every card type has its own name, and none is the fallback name. */
  lemma CardTypeNamesDistinct(a: Cards.CardType, b: Cards.CardType)
    ensures CardTypeName(a) == CardTypeName(b) ==> a == b
    ensures CardTypeName(a) != "Unknown"
  {
  }

  /** Every card rarity has its own name, and none is the fallback name. */
  lemma CardRarityNamesDistinct(a: Cards.CardRarity, b: Cards.CardRarity)
    ensures CardRarityName(a) == CardRarityName(b) ==> a == b
    ensures CardRarityName(a) != "Unknown"
  {
  }

  /** Every relic rarity has its own name, and none is the fallback name. */
  lemma RelicRarityNamesDistinct(a: Relics.RelicRarity, b: Relics.RelicRarity)
    ensures RelicRarityName(a) == RelicRarityName(b) ==> a == b
    ensures RelicRarityName(a) != "Unknown"
  {
  }
}
