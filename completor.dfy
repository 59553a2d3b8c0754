/**
 * The completion policy installed with the line editor: it looks only at
 * the first character of the partial line, ignoring case.
 */
module Completion {
  import opened Wrappers
  import opened Rules

  /** A request to replace the whole partial line and move the cursor. */
  datatype Completion = ReplaceWholeLine(newLine: string, newCursor: nat)

  /** What the completor gives back, and whether it posted its advisory notice. */
  datatype Reply = Reply(completion: Option<Completion>, noticePosted: bool)

  /**
   * `cursor` and `consecutivePresses` are part of the completor interface
   * and unused by this policy; the press count is never zero.
   */
  function Complete(input: string, cursor: nat, consecutivePresses: nat): (r: Reply)
    requires consecutivePresses >= 1
    ensures r.completion.Some? <==> |input| > 0 && input[0] in "aApP"
    ensures r.noticePosted <==> r.completion.None?
    ensures |input| > 0 && input[0] in "aA" ==> r.completion == Some(ReplaceWholeLine("attack", 6))
    ensures |input| > 0 && input[0] in "pP" ==> r.completion == Some(ReplaceWholeLine("potion", 6))
    ensures r.completion.Some? ==> r.completion.value.newCursor == |r.completion.value.newLine|
  {
    if |input| == 0 then Reply(None, true)
    else match input[0]
      case 'a' | 'A' => Reply(Some(ReplaceWholeLine("attack", 6)), false)
      case 'p' | 'P' => Reply(Some(ReplaceWholeLine("potion", 6)), false)
      case _ => Reply(None, true)
  }

  /** Two partial lines that start alike complete alike, wherever the cursor is. */
  lemma CompleteSeesFirstCharOnly(a: string, b: string, ca: nat, cb: nat, pa: nat, pb: nat)
    requires pa >= 1 && pb >= 1
    requires |a| > 0 && |b| > 0 && a[0] == b[0]
    ensures Complete(a, ca, pa) == Complete(b, cb, pb)
  {
  }

  /**
   * A line the completor writes is one the turn controller accepts, and it
   * names the command whose initial the player typed, in either case.
   */
  lemma CompletionIsCommand(input: string, cursor: nat, presses: nat)
    requires presses >= 1
    requires Complete(input, cursor, presses).completion.Some?
    ensures var line := Complete(input, cursor, presses).completion.value.newLine;
      Classify(line) == (if input[0] in "aA" then Attack else Potion)
  {
  }

  lemma CompleteExamples()
    ensures Complete("A", 1, 1).completion == Some(ReplaceWholeLine("attack", 6))
    ensures Complete("att", 3, 1).completion == Some(ReplaceWholeLine("attack", 6))
    ensures Complete("Attack", 0, 2).completion == Some(ReplaceWholeLine("attack", 6))
    ensures Complete("P", 1, 1).completion == Some(ReplaceWholeLine("potion", 6))
    ensures Complete("xyz", 3, 1) == Reply(None, true)
    ensures Complete("", 0, 1) == Reply(None, true)
    ensures Complete(" a", 2, 1) == Reply(None, true)
  {
  }
}
