/**
 * The status line published before every prompt. Only the choice of
 * colours is modelled; the text layout is presentation.
 */
module Status {
  import opened Rules

  /** A foreground colour of the status line; `Plain` is the terminal default. */
  datatype Tint = Plain | Red | Yellow | Green

  /**
   * Colour of the player's HP: red when one enemy hit would finish the
   * player, yellow when a potion would heal its full amount, green above.
   */
  function HpTint(uhp: int): (t: Tint)
    ensures t == Red <==> uhp <= 10
    ensures t == Yellow <==> 10 < uhp <= 20
    ensures t == Green <==> 20 < uhp
  {
    if uhp <= MONSTER_ATTACK_DAMAGE then Red
    else if uhp <= PLAYER_MAX_HP - PLAYER_POTION_HEAL then Yellow
    else Green
  }

  /** Colour of the potion count: red when none are left, plain otherwise. */
  function PotionTint(upot: int): (t: Tint)
    ensures t == Red <==> upot == 0
    ensures t == Plain <==> upot != 0
  {
    if upot == 0 then Red else Plain
  }

  /** The numbers and colours shown; monster HP carries no colour. */
  datatype StatusLine = StatusLine(hp: int, hpTint: Tint, potions: int, potionTint: Tint, monsterHp: int)

  function StatusOf(s: GameState): StatusLine
  {
    StatusLine(s.uhp, HpTint(s.uhp), s.upot, PotionTint(s.upot), s.mhp)
  }
}
