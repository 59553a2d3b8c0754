/**
 * `struct Fight` with its three game fields updated in place. The line
 * editor it owns is replaced by the responses it reads (a sequence) and the
 * output it writes (the field `log`).
 */
module Game {
  import opened Wrappers
  import opened Rules
  import opened Status
  import opened Battle

  class Fight {
    var uhp: int
    var upot: int
    var mhp: int
    /** Everything written to the terminal so far. */
    var log: seq<Event>

    function State(): GameState
      reads this`uhp, this`upot, this`mhp
    {
      GameState(uhp, upot, mhp)
    }

    /** The fight as `play` sets it up, after the greeting in `io`. */
    constructor (io: seq<Event>)
      ensures State() == Initial() && log == io
    {
      uhp := PLAYER_MAX_HP;
      upot := PLAYER_START_POTIONS;
      mhp := MONSTER_MAX_HP;
      log := io;
    }

    /**
     * Greets the player, sets up a fresh fight and runs it on `rs`; returns
     * how it ended and everything written.
     */
    static method Play(rs: seq<Response>) returns (outcome: Outcome, said: seq<Event>)
      ensures outcome == Resolve(Initial(), rs, 0).outcome
      ensures said == [Welcome] + Resolve(Initial(), rs, 0).said
    {
      var fight := new Fight([Welcome]);
      outcome := fight.Run(rs);
      said := fight.log;
    }

    method UpdateStatusLine()
      modifies this`log
      ensures log == old(log) + [ShowStatus(StatusOf(State()))]
    {
      log := log + [ShowStatus(StatusLine(uhp, HpTint(uhp), upot, PotionTint(upot), mhp))];
    }

    method MonAttack()
      modifies this
      ensures State() == MonsterAttack(old(State()))
      ensures log == old(log) + [EnemyAttack(MONSTER_ATTACK_DAMAGE)]
    {
      uhp := uhp - MONSTER_ATTACK_DAMAGE;
      log := log + [EnemyAttack(MONSTER_ATTACK_DAMAGE)];
    }

    /** One submitted line: echo it, then attack, drink or complain. */
    method Submit(wat: string)
      modifies this
      ensures State() == Obey(old(State()), Classify(wat)).next
      ensures log == old(log) + [Echo(wat)] + Obey(old(State()), Classify(wat)).said
    {
      log := log + [Echo(wat)];
      if wat == "a" || wat == "attack" {
        mhp := mhp - PLAYER_ATTACK_DAMAGE;
        log := log + [YouAttack(PLAYER_ATTACK_DAMAGE)];
        MonAttack();
      } else if wat == "p" || wat == "potion" {
        if upot == 0 {
          log := log + [OutOfPotions];
        } else {
          upot := upot - 1;
          var newHp := Min(uhp + PLAYER_POTION_HEAL, PLAYER_MAX_HP);
          var amountHealed := newHp - uhp;
          if amountHealed == 0 {
            log := log + [WastedWholePotion];
          } else {
            log := log + [Healed(amountHealed)];
            if amountHealed < PLAYER_POTION_HEAL {
              log := log + [PartlyWasted];
            }
            uhp := newHp;
          }
          MonAttack();
        }
      } else {
        log := log + [InvalidChoice];
      }
    }

    /** Reacts to one response; `Some` means the loop must be left at once. */
    method Step(r: Response) returns (halt: Option<Outcome>)
      modifies this
      ensures React(old(State()), r).Halt? ==>
        halt == Some(React(old(State()), r).outcome) && State() == old(State()) && log == old(log)
      ensures React(old(State()), r).Continue? ==>
        halt == None && State() == React(old(State()), r).next &&
        log == old(log) + React(old(State()), r).said
    {
      match r
      case Dead =>
        halt := Some(Aborted);
      case Quit =>
        halt := Some(PlayerQuit);
      case Input(wat) =>
        Submit(wat);
        halt := None;
      case Discarded(wat) =>
        log := log + [EchoDiscarded(wat)];
        halt := None;
      case UnknownKey(k) =>
        log := log + [UnknownKeyNotice(k)];
        halt := None;
    }

    /**
     * `inner_loop`: while both sides stand, publish the status line and read
     * the next response; then report the loss or the win.
     */
    method Run(rs: seq<Response>) returns (outcome: Outcome)
      modifies this
      ensures outcome == Resolve(old(State()), rs, 0).outcome
      ensures State() == Resolve(old(State()), rs, 0).final
      ensures log == old(log) + Resolve(old(State()), rs, 0).said
    {
      // what has been written, followed by what the rest of the loop writes
      ghost var goal := After(log, Resolve(State(), rs, 0));
      var i := 0;
      while uhp > 0 && mhp > 0
        invariant 0 <= i <= |rs|
        invariant goal == After(log, Resolve(State(), rs, i))
        decreases |rs| - i
      {
        ghost var before := State();
        ghost var beforeLog := log;
        UpdateStatusLine();
        if i == |rs| {
          return AwaitingInput;
        }
        ghost var statusLog := log;
        var halt := Step(rs[i]);
        if halt.Some? {
          return halt.value;
        }
        ghost var rest := Resolve(State(), rs, i + 1);
        AfterAfter(statusLog, React(before, rs[i]).said, rest);
        AfterAfter(beforeLog, [ShowStatus(StatusOf(before))] + React(before, rs[i]).said, rest);
        i := i + 1;
      }
      assert Resolve(State(), rs, i) == Verdict(State());
      outcome := Report();
    }

    /** The message written once a side is down; loss is tested first. */
    method Report() returns (outcome: Outcome)
      requires !Running(State())
      modifies this`log
      ensures outcome == Verdict(State()).outcome
      ensures log == old(log) + Verdict(State()).said
    {
      if uhp <= 0 {
        log := log + [YouLose];
        outcome := PlayerLoses;
      } else if mhp <= 0 {
        log := log + [YouWin];
        outcome := PlayerWins;
      }
    }
  }
}
