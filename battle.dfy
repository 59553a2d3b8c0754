/**
 * The battle as values: what one response read by the turn controller
 * does to the game state and which messages it produces, and what a whole
 * stream of responses leads to. The `Fight` class in module Game is proved
 * to behave exactly as these functions say.
 */
module Battle {
  import opened Rules
  import opened Status

  newtype byte = x: int | 0 <= x < 256

  /** What a blocking read of the line editor can yield. */
  datatype Response =
    | Input(text: string)
    | Discarded(text: string)
    | Quit
    | Dead
    | UnknownKey(key: byte)

  /** The output the game writes, one entry per message. */
  datatype Event =
    | Welcome                       // the two greeting lines
    | ShowStatus(line: StatusLine)  // status line published before a prompt
    | Echo(text: string)            // a submitted line echoed back
    | EchoDiscarded(text: string)   // a discarded line echoed dimly
    | YouAttack(damage: int)
    | OutOfPotions
    | WastedWholePotion
    | Healed(amount: int)
    | PartlyWasted
    | InvalidChoice
    | EnemyAttack(damage: int)
    | UnknownKeyNotice(key: byte)   // transient notice
    | YouLose
    | YouWin

  /** How the turn loop ends; `AwaitingInput` means the responses ran out first. */
  datatype Outcome = PlayerWins | PlayerLoses | PlayerQuit | Aborted | AwaitingInput

  function Initial(): (s: GameState)
    ensures Valid(s) && Running(s)
  {
    GameState(PLAYER_MAX_HP, PLAYER_START_POTIONS, MONSTER_MAX_HP)
  }

  /** The loop condition of the turn controller. */
  predicate Running(s: GameState)
  {
    s.uhp > 0 && s.mhp > 0
  }

  /** Bounds every reachable state keeps. */
  predicate Valid(s: GameState)
  {
    -MONSTER_ATTACK_DAMAGE < s.uhp <= PLAYER_MAX_HP &&
    0 <= s.upot <= PLAYER_START_POTIONS &&
    -PLAYER_ATTACK_DAMAGE < s.mhp <= MONSTER_MAX_HP
  }

  /** The monster's counter-attack. */
  function MonsterAttack(s: GameState): (t: GameState)
    ensures t.uhp == s.uhp - MONSTER_ATTACK_DAMAGE && t.upot == s.upot && t.mhp == s.mhp
  {
    s.(uhp := s.uhp - MONSTER_ATTACK_DAMAGE)
  }

  /** The HP a potion would bring the player to. */
  function HealTo(uhp: int): (h: int)
    ensures h <= PLAYER_MAX_HP && h <= uhp + PLAYER_POTION_HEAL
    ensures h == PLAYER_MAX_HP || h == uhp + PLAYER_POTION_HEAL
    ensures uhp <= PLAYER_MAX_HP ==> uhp <= h
  {
    Min(uhp + PLAYER_POTION_HEAL, PLAYER_MAX_HP)
  }

  /**
   * The amount a potion heals. Rust's `i32::saturating_sub` saturates only at
   * the bounds of i32; `Valid` keeps the operands far from those bounds, so
   * this is plain subtraction.
   */
  function HealAmount(uhp: int): (a: int)
    ensures uhp + a <= PLAYER_MAX_HP
    ensures uhp <= PLAYER_MAX_HP ==> 0 <= a <= PLAYER_POTION_HEAL
  {
    HealTo(uhp) - uhp
  }

  lemma HealAmountBounds(uhp: int)
    requires uhp <= PLAYER_MAX_HP
    ensures HealAmount(uhp) == Min(uhp + 30, 50) - uhp
    ensures 0 <= HealAmount(uhp) <= PLAYER_POTION_HEAL
    ensures HealAmount(uhp) == 0 <==> uhp == PLAYER_MAX_HP
    ensures HealAmount(uhp) < PLAYER_POTION_HEAL <==> uhp > PLAYER_MAX_HP - PLAYER_POTION_HEAL
  {
  }

  /** The status colours name these situations. */
  lemma TintMeaning(uhp: int)
    requires uhp <= PLAYER_MAX_HP
    ensures HpTint(uhp) == Red <==> MonsterAttack(GameState(uhp, 0, 0)).uhp <= 0
    ensures HpTint(uhp) == Green <==> HealAmount(uhp) < PLAYER_POTION_HEAL
  {
  }

  /** One full turn for both sides, or a turn that changes nothing. */
  datatype Effect = Effect(next: GameState, said: seq<Event>)

  /** Drinking a potion when one is left, followed by the monster's attack. */
  function Drink(s: GameState): Effect
    requires s.upot != 0
  {
    var amount := HealAmount(s.uhp);
    var drunk := s.(upot := s.upot - 1, uhp := if amount == 0 then s.uhp else HealTo(s.uhp));
    var report :=
      if amount == 0 then [WastedWholePotion]
      else [Healed(amount)] + (if amount < PLAYER_POTION_HEAL then [PartlyWasted] else []);
    Effect(MonsterAttack(drunk), report + [EnemyAttack(MONSTER_ATTACK_DAMAGE)])
  }

  /** The effect of a classified command. */
  function Obey(s: GameState, c: Command): Effect
  {
    match c
    case Attack =>
      Effect(MonsterAttack(s.(mhp := s.mhp - PLAYER_ATTACK_DAMAGE)),
             [YouAttack(PLAYER_ATTACK_DAMAGE), EnemyAttack(MONSTER_ATTACK_DAMAGE)])
    case Potion =>
      if s.upot == 0 then Effect(s, [OutOfPotions]) else Drink(s)
    case Unrecognized => Effect(s, [InvalidChoice])
  }

  /** What one read does: the loop either goes on or is left at once. */
  datatype Reaction = Continue(next: GameState, said: seq<Event>) | Halt(outcome: Outcome)

  function React(s: GameState, r: Response): Reaction
  {
    match r
    case Dead => Halt(Aborted)
    case Quit => Halt(PlayerQuit)
    case Input(line) =>
      var e := Obey(s, Classify(line));
      Continue(e.next, [Echo(line)] + e.said)
    case Discarded(line) => Continue(s, [EchoDiscarded(line)])
    case UnknownKey(k) => Continue(s, [UnknownKeyNotice(k)])
  }

  /** Where the turn loop stops, in what state, and everything it wrote. */
  datatype Ending = Ending(outcome: Outcome, final: GameState, said: seq<Event>)

  /** `e` with `said` written before it. */
  function After(said: seq<Event>, e: Ending): Ending
  {
    Ending(e.outcome, e.final, said + e.said)
  }

  /** The message written once the loop condition fails: loss is tested first. */
  function Verdict(s: GameState): (e: Ending)
    requires !Running(s)
    ensures e.final == s
    ensures e.outcome == PlayerLoses <==> s.uhp <= 0
    ensures e.outcome == PlayerWins <==> s.uhp > 0 && s.mhp <= 0
    ensures e.said == [if s.uhp <= 0 then YouLose else YouWin]
  {
    if s.uhp <= 0 then Ending(PlayerLoses, s, [YouLose])
    else Ending(PlayerWins, s, [YouWin])
  }

  /**
   * The turn loop from state `s`, its next read yielding `rs[i]`, the one
   * after `rs[i + 1]`, and so on: while both sides stand, publish the status
   * line and react to the next response. A whole run is `Resolve(s, rs, 0)`.
   */
  function Resolve(s: GameState, rs: seq<Response>, i: nat): Ending
    requires i <= |rs|
    decreases |rs| - i
  {
    if !Running(s) then Verdict(s)
    else
      var status := ShowStatus(StatusOf(s));
      if i == |rs| then Ending(AwaitingInput, s, [status])
      else match React(s, rs[i])
        case Halt(o) => Ending(o, s, [status])
        case Continue(t, said) => After([status] + said, Resolve(t, rs, i + 1))
  }

  lemma AfterAfter(a: seq<Event>, b: seq<Event>, e: Ending)
    ensures After(a, After(b, e)) == After(a + b, e)
  {
    assert a + (b + e.said) == (a + b) + e.said;
  }

  // ---------------------------------------------------------------------
  // One response

  /** An attack costs the monster exactly 10 HP and then, always, the player 10 HP. */
  lemma AttackTurn(s: GameState, line: string)
    requires line == "a" || line == "attack"
    ensures React(s, Input(line)) ==
      Continue(GameState(s.uhp - 10, s.upot, s.mhp - 10),
               [Echo(line), YouAttack(10), EnemyAttack(10)])
  {
  }

  /** With no potion left, asking for one changes nothing and the monster does not attack. */
  lemma OutOfPotionsTurn(s: GameState, line: string)
    requires line == "p" || line == "potion"
    requires s.upot == 0
    ensures React(s, Input(line)) == Continue(s, [Echo(line), OutOfPotions])
  {
  }

  /**
   * A potion costs exactly one potion, heals `Min(uhp + 30, 50) - uhp`, and
   * is followed by the monster's attack; healing nothing means the player was
   * at full HP and wastes the whole potion.
   */
  lemma PotionTurn(s: GameState, line: string)
    requires line == "p" || line == "potion"
    requires s.upot > 0 && s.uhp <= PLAYER_MAX_HP
    ensures var healed := Min(s.uhp + 30, 50) - s.uhp;
      React(s, Input(line)) ==
        Continue(GameState(Min(s.uhp + 30, 50) - 10, s.upot - 1, s.mhp),
                 [Echo(line)] +
                 (if s.uhp == 50 then [WastedWholePotion]
                  else [Healed(healed)] + (if healed < 30 then [PartlyWasted] else [])) +
                 [EnemyAttack(10)])
  {
    HealAmountBounds(s.uhp);
  }

  /** Responses that are not one of the four command words leave the state alone and spare the player. */
  lemma IdleTurn(s: GameState, r: Response)
    requires r.Discarded? || r.UnknownKey? ||
             (r.Input? && r.text != "a" && r.text != "attack" && r.text != "p" && r.text != "potion")
    ensures React(s, r).Continue? && React(s, r).next == s
    ensures EnemyAttack(MONSTER_ATTACK_DAMAGE) !in React(s, r).said
  {
  }

  /** A turn taken while both stand keeps every bound. */
  lemma ReactKeepsValid(s: GameState, r: Response)
    requires Valid(s) && Running(s)
    ensures React(s, r).Continue? ==> Valid(React(s, r).next)
  {
  }

  predicate NoVerdict(said: seq<Event>)
  {
    forall e | e in said :: !e.YouWin? && !e.YouLose?
  }

  /** No single response reports a win or a loss. */
  lemma ReactSaysNoVerdict(s: GameState, r: Response)
    ensures React(s, r).Continue? ==> NoVerdict(React(s, r).said)
  {
  }

  // ---------------------------------------------------------------------
  // A whole run

  /** Starting from a reachable state, the loop ends in one. */
  lemma {:induction false} ResolveKeepsValid(s: GameState, rs: seq<Response>, i: nat)
    requires i <= |rs| && Valid(s)
    ensures Valid(Resolve(s, rs, i).final)
    decreases |rs| - i
  {
    if Running(s) && i < |rs| {
      ReactKeepsValid(s, rs[i]);
      match React(s, rs[i])
      case Halt(_) =>
      case Continue(t, _) => ResolveKeepsValid(t, rs, i + 1);
    }
  }

  /** Monster HP and potions never go up. */
  lemma {:induction false} ResolveNeverRestores(s: GameState, rs: seq<Response>, i: nat)
    requires i <= |rs|
    ensures Resolve(s, rs, i).final.mhp <= s.mhp
    ensures Resolve(s, rs, i).final.upot <= s.upot
    decreases |rs| - i
  {
    if Running(s) && i < |rs| {
      match React(s, rs[i])
      case Halt(_) =>
      case Continue(t, _) => ResolveNeverRestores(t, rs, i + 1);
    }
  }

  /**
   * The loop ends in a loss exactly when the player is down (even if the
   * monster is down too), in a win exactly when only the monster is down;
   * quitting, aborting and running out of input happen with both standing.
   * A win or a loss is reported once, as the last message, and nothing is
   * reported otherwise.
   */
  lemma {:induction false} ResolveVerdict(s: GameState, rs: seq<Response>, i: nat)
    requires i <= |rs|
    ensures var e := Resolve(s, rs, i);
      (e.outcome == PlayerLoses <==> e.final.uhp <= 0) &&
      (e.outcome == PlayerWins <==> e.final.uhp > 0 && e.final.mhp <= 0) &&
      (e.outcome in {PlayerQuit, Aborted, AwaitingInput} <==> Running(e.final))
    ensures var e := Resolve(s, rs, i);
      |e.said| > 0 &&
      NoVerdict(e.said[..|e.said| - 1]) &&
      (e.said[|e.said| - 1] == YouLose <==> e.outcome == PlayerLoses) &&
      (e.said[|e.said| - 1] == YouWin <==> e.outcome == PlayerWins)
    decreases |rs| - i
  {
    if Running(s) && i < |rs| {
      match React(s, rs[i])
      case Halt(_) =>
      case Continue(t, said) =>
        ReactSaysNoVerdict(s, rs[i]);
        ResolveVerdict(t, rs, i + 1);
        var e := Resolve(t, rs, i + 1);
        var all := [ShowStatus(StatusOf(s))] + said + e.said;
        assert all[..|all| - 1] == [ShowStatus(StatusOf(s))] + said + e.said[..|e.said| - 1];
    }
  }

  /** A round in which the game goes on leads to where the rest of the loop leads. */
  lemma ResolveContinues(s: GameState, rs: seq<Response>, i: nat)
    requires Running(s) && i < |rs| && React(s, rs[i]).Continue?
    ensures Resolve(s, rs, i).outcome == Resolve(React(s, rs[i]).next, rs, i + 1).outcome
    ensures Resolve(s, rs, i).final == Resolve(React(s, rs[i]).next, rs, i + 1).final
  {
  }

  /**
   * `n` attack commands in a row, read while both sides still stand, cost
   * each side exactly `10 * n` HP.
   */
  lemma {:induction false} AttackStreak(s: GameState, rs: seq<Response>, i: nat, n: nat)
    requires i + n <= |rs|
    requires forall j | i <= j < i + n :: rs[j].Input? && Classify(rs[j].text) == Attack
    requires n > 0 ==> s.uhp > 10 * (n - 1) && s.mhp > 10 * (n - 1)
    ensures var t := GameState(s.uhp - 10 * n, s.upot, s.mhp - 10 * n);
      Resolve(s, rs, i).outcome == Resolve(t, rs, i + n).outcome &&
      Resolve(s, rs, i).final == Resolve(t, rs, i + n).final
    decreases n
  {
    if n > 0 {
      AttackTurn(s, rs[i].text);
      ResolveContinues(s, rs, i);
      AttackStreak(GameState(s.uhp - 10, s.upot, s.mhp - 10), rs, i + 1, n - 1);
    }
  }

  /** A potion drunk while both sides stand, as one round of the loop. */
  lemma DrinkRound(s: GameState, rs: seq<Response>, i: nat)
    requires Running(s) && i < |rs| && rs[i].Input? && Classify(rs[i].text) == Potion
    requires s.upot > 0 && s.uhp <= PLAYER_MAX_HP
    ensures var t := GameState(Min(s.uhp + 30, 50) - 10, s.upot - 1, s.mhp);
      Resolve(s, rs, i).outcome == Resolve(t, rs, i + 1).outcome &&
      Resolve(s, rs, i).final == Resolve(t, rs, i + 1).final
  {
    PotionTurn(s, rs[i].text);
    ResolveContinues(s, rs, i);
  }

  /**
   * A quit read while both sides stand ends the loop at once, with the state
   * unchanged, only the status line written and neither verdict.
   */
  lemma QuitEndsAtOnce(s: GameState, rs: seq<Response>, i: nat)
    requires Running(s) && i < |rs| && rs[i] == Quit
    ensures Resolve(s, rs, i) == Ending(PlayerQuit, s, [ShowStatus(StatusOf(s))])
  {
  }

  /** Once a side is down no response is read: the verdict is all that is written. */
  lemma FinishedReadsNothing(s: GameState, rs: seq<Response>, i: nat)
    requires !Running(s) && i <= |rs|
    ensures Resolve(s, rs, i) == Verdict(s)
    ensures |Resolve(s, rs, i).said| == 1
  {
  }
}
