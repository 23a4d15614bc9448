/** The enemies of a combat seen through their characters: the character
    states in roster order, and the conditions under which the characters
    can be updated one at a time without one update touching another. */
module Rosters {
  import opened Characters
  import opened Enemies

  ghost function Chars(roster: seq<Enemy>): set<Character> {
    set i | 0 <= i < |roster| :: roster[i].ch
  }

  /** No two roster entries share a character. */
  predicate Distinct(roster: seq<Enemy>) {
    forall i, j :: 0 <= i < j < |roster| ==> roster[i].ch != roster[j].ch
  }

  /** The character `p` (the player's) is not one of the enemies' characters. */
  predicate Apart(p: Character, roster: seq<Enemy>) {
    forall i :: 0 <= i < |roster| ==> roster[i].ch != p
  }

  ghost predicate Fit(roster: seq<Enemy>)
    reads Chars(roster)
  {
    forall i :: 0 <= i < |roster| ==> roster[i].ch.Valid()
  }

  /** The enemies' character states, in roster order. */
  ghost function Foes(roster: seq<Enemy>): (r: seq<CharState>)
    reads Chars(roster)
    ensures |r| == |roster|
    ensures forall i :: 0 <= i < |roster| ==> r[i] == roster[i].ch.State()
  {
    seq(|roster|, i requires 0 <= i < |roster| reads Chars(roster) => roster[i].ch.State())
  }

  /** The enemies' announced intents, in roster order. */
  ghost function Intents(roster: seq<Enemy>): (r: seq<Intent>)
    reads set i | 0 <= i < |roster| :: roster[i]
    ensures |r| == |roster|
    ensures forall i :: 0 <= i < |roster| ==> r[i] == roster[i].intent
  {
    seq(|roster|, i requires 0 <= i < |roster| reads (set j | 0 <= j < |roster| :: roster[j]) => roster[i].intent)
  }
}
