/**
 * Whole games played from the starting position (50 HP, 3 potions, monster
 * at 100 HP), computed from the model.
 */
module Scenarios {
  import opened Rules
  import opened Status
  import opened Battle

  const A: Response := Input("a")
  const P: Response := Input("potion")

  /**
   * From 10 HP with a potion in hand: drink (healing all 30 points), then
   * attack twice, which brings the player back to 10 HP.
   */
  lemma DrinkThenAttackTwice(s: GameState, rs: seq<Response>, i: nat)
    requires i + 3 <= |rs| && rs[i] == P && rs[i + 1] == A && rs[i + 2] == A
    requires s.uhp == 10 && s.upot > 0 && s.mhp > 10
    ensures var t := GameState(10, s.upot - 1, s.mhp - 20);
      Resolve(s, rs, i).outcome == Resolve(t, rs, i + 3).outcome &&
      Resolve(s, rs, i).final == Resolve(t, rs, i + 3).final
  {
    DrinkRound(s, rs, i);
    AttackStreak(GameState(30, s.upot - 1, s.mhp), rs, i + 1, 2);
  }

  /** Attack, then drink: the potion can heal only 10 of its 30 points. */
  lemma OpeningTurns()
    ensures var e := Resolve(Initial(), [A, P], 0);
      e.outcome == AwaitingInput && e.final == GameState(40, 2, 90) &&
      Healed(10) in e.said && PartlyWasted in e.said
  {
    var rs := [A, P];
    var drink := [Echo("potion"), Healed(10), PartlyWasted, EnemyAttack(10)];
    var last := Resolve(GameState(40, 2, 90), rs, 2);
    assert last == Ending(AwaitingInput, GameState(40, 2, 90), [ShowStatus(StatusOf(GameState(40, 2, 90)))]);
    var second := Resolve(GameState(40, 3, 90), rs, 1);
    assert React(GameState(40, 3, 90), P) == Continue(GameState(40, 2, 90), drink);
    assert second == After([ShowStatus(StatusOf(GameState(40, 3, 90)))] + drink, last);
    assert Healed(10) in second.said && PartlyWasted in second.said;
    assert React(Initial(), A).next == GameState(40, 3, 90);
  }

  /**
   * Five further attacks do not win from there: the player falls at the
   * fourth, with the monster at 50 HP, and the fifth is never read.
   */
  lemma OpeningThenAttacksLoses()
    ensures Resolve(Initial(), [A, P, A, A, A, A, A], 0).outcome == PlayerLoses
    ensures Resolve(Initial(), [A, P, A, A, A, A, A], 0).final == GameState(0, 2, 50)
  {
    var rs := [A, P, A, A, A, A, A];
    AttackStreak(GameState(50, 3, 100), rs, 0, 1);
    DrinkRound(GameState(40, 3, 90), rs, 1);
    AttackStreak(GameState(40, 2, 90), rs, 2, 4);
  }

  /** Attacking every turn loses after five turns; later responses are never read. */
  lemma OnlyAttackingLoses()
    ensures Resolve(Initial(), [A, A, A, A, A, A, A, A, A, A], 0).outcome == PlayerLoses
    ensures Resolve(Initial(), [A, A, A, A, A, A, A, A, A, A], 0).final == GameState(0, 3, 50)
  {
    var rs := [A, A, A, A, A, A, A, A, A, A];
    AttackStreak(GameState(50, 3, 100), rs, 0, 5);
  }

  /** Drinking each potion when it heals all 30 points, then attacking. */
  const WIN_LINE: seq<Response> := [A, A, A, A, P, A, A, P, A, A, P, A, A]

  /** Same start and end of the two games: both finish at once or both read on from there. */
  predicate SameEnd(e: Ending, f: Ending)
  {
    e.outcome == f.outcome && e.final == f.final
  }

  lemma WinLineOpening()
    ensures SameEnd(Resolve(Initial(), WIN_LINE, 0), Resolve(GameState(10, 2, 40), WIN_LINE, 7))
  {
    AttackStreak(Initial(), WIN_LINE, 0, 4);
    DrinkThenAttackTwice(GameState(10, 3, 60), WIN_LINE, 4);
  }

  /**
   * The first twelve responses of that line, nine attacks and three
   * potions, leave the game waiting for input with the monster at 10 HP and
   * the player at 20.
   */
  lemma NineAttacks()
    ensures Resolve(Initial(), WIN_LINE[..12], 0).outcome == AwaitingInput
    ensures Resolve(Initial(), WIN_LINE[..12], 0).final == GameState(20, 0, 10)
  {
    var rs := WIN_LINE[..12];
    AttackStreak(Initial(), rs, 0, 4);
    DrinkThenAttackTwice(GameState(10, 3, 60), rs, 4);
    DrinkThenAttackTwice(GameState(10, 2, 40), rs, 7);
    DrinkRound(GameState(10, 1, 20), rs, 10);
    AttackStreak(GameState(30, 0, 20), rs, 11, 1);
  }

  /** The whole line ends as the game from that state at response 12 does. */
  lemma WinLineNine()
    ensures SameEnd(Resolve(Initial(), WIN_LINE, 0), Resolve(GameState(20, 0, 10), WIN_LINE, 12))
  {
    WinLineOpening();
    DrinkThenAttackTwice(GameState(10, 2, 40), WIN_LINE, 7);
    DrinkRound(GameState(10, 1, 20), WIN_LINE, 10);
    AttackStreak(GameState(30, 0, 20), WIN_LINE, 11, 1);
  }

  /** The tenth attack wins, with the player at 10 HP. */
  lemma WinningLine()
    ensures Resolve(Initial(), WIN_LINE, 0).outcome == PlayerWins
    ensures Resolve(Initial(), WIN_LINE, 0).final == GameState(10, 0, 0)
  {
    WinLineNine();
    AttackStreak(GameState(20, 0, 10), WIN_LINE, 12, 1);
  }

  /** As above, but the first potion is drunk at 30 HP and wastes 10 points. */
  const TIE_LINE: seq<Response> := [A, A, P, A, A, A, P, A, A, P, A, A, A]

  lemma TieLineOpening()
    ensures SameEnd(Resolve(Initial(), TIE_LINE, 0), Resolve(GameState(10, 2, 50), TIE_LINE, 6))
  {
    AttackStreak(Initial(), TIE_LINE, 0, 2);
    DrinkRound(GameState(30, 3, 80), TIE_LINE, 2);
    assert SameEnd(Resolve(Initial(), TIE_LINE, 0), Resolve(GameState(40, 2, 80), TIE_LINE, 3));
    AttackStreak(GameState(40, 2, 80), TIE_LINE, 3, 3);
  }

  lemma TieLineMiddle()
    ensures SameEnd(Resolve(GameState(10, 2, 50), TIE_LINE, 6), Resolve(GameState(30, 0, 30), TIE_LINE, 10))
  {
    DrinkThenAttackTwice(GameState(10, 2, 50), TIE_LINE, 6);
    DrinkRound(GameState(10, 1, 30), TIE_LINE, 9);
  }

  /**
   * Along that line both sides reach 0 HP on the same turn, and the loss is
   * reported.
   */
  lemma TieLine()
    ensures Resolve(Initial(), TIE_LINE, 0).outcome == PlayerLoses
    ensures Resolve(Initial(), TIE_LINE, 0).final == GameState(0, 0, 0)
  {
    TieLineOpening();
    TieLineMiddle();
    AttackStreak(GameState(30, 0, 30), TIE_LINE, 10, 3);
  }

  /** Words the completor would fix are not accepted as typed. */
  lemma CaseMatters()
    ensures Resolve(Initial(), [Input("A"), Input("Attack"), Input(" a")], 0).final == Initial()
    ensures Resolve(Initial(), [Input("A"), Input("Attack"), Input(" a")], 0).outcome == AwaitingInput
  {
    var rs := [Input("A"), Input("Attack"), Input(" a")];
    IdleTurn(Initial(), rs[0]);
    ResolveContinues(Initial(), rs, 0);
    IdleTurn(Initial(), rs[1]);
    ResolveContinues(Initial(), rs, 1);
    IdleTurn(Initial(), rs[2]);
    ResolveContinues(Initial(), rs, 2);
  }
}
