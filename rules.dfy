/** Small helper datatype shared by the other modules. */
module Wrappers {
  datatype Option<+T> = None | Some(value: T)
}

/**
 * The fixed balance constants of the Fight example, the three numbers a
 * battle is made of, and the test the turn controller applies to a
 * submitted line.
 */
module Rules {
  const PLAYER_MAX_HP: int := 50
  const PLAYER_START_POTIONS: int := 3
  const PLAYER_POTION_HEAL: int := 30
  const PLAYER_ATTACK_DAMAGE: int := 10
  const MONSTER_MAX_HP: int := 100
  const MONSTER_ATTACK_DAMAGE: int := 10

  /** The game fields of `struct Fight`: player HP, player potions, monster HP. */
  datatype GameState = GameState(uhp: int, upot: int, mhp: int)

  /** `i32::min` */
  function Min(a: int, b: int): (m: int)
    ensures m <= a && m <= b
    ensures m == a || m == b
  {
    if a <= b then a else b
  }

  /** What a submitted line asks the player character to do. */
  datatype Command = Attack | Potion | Unrecognized

  /**
   * The turn controller's reading of a submitted line: an exact,
   * case-sensitive comparison with the untrimmed text, so that "A",
   * "Attack" and " a" are all unrecognised.
   */
  function Classify(line: string): (c: Command)
    ensures c == Attack <==> line == "a" || line == "attack"
    ensures c == Potion <==> line == "p" || line == "potion"
    ensures c != Unrecognized ==> |line| > 0 && line[0] in "ap"
  {
    if line == "a" || line == "attack" then Attack
    else if line == "p" || line == "potion" then Potion
    else Unrecognized
  }

  /** Upper-case letters, surrounding blanks and other spellings are not commands. */
  lemma ClassifyIsExact()
    ensures Classify("A") == Unrecognized && Classify("Attack") == Unrecognized
    ensures Classify(" a") == Unrecognized && Classify("a ") == Unrecognized
    ensures Classify("P") == Unrecognized && Classify("Potion") == Unrecognized
    ensures Classify("att") == Unrecognized && Classify("") == Unrecognized
  {
  }
}
