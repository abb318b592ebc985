/**
 * `user_confirm`: after showing the suggested labels, the operator's answer
 * is read as exactly one byte of standard input.  Only `y` and `Y` approve;
 * a failed read, including end of input, is an error for the caller to
 * propagate, not a refusal.  Standard input is the sequence of bytes still
 * unread, so whatever follows the answer byte (such as the newline typed
 * after it) stays there for the next question.
 */
module Confirm {

  newtype byte = x: int | 0 <= x < 256

  /** `buffer[0] as char`: the character whose code point is the byte's value. */
  function AsChar(b: byte): char {
    (b as int) as char
  }

  /** `input == 'y' || input == 'Y'`, stated on the byte. */
  function Approves(b: byte): (yes: bool)
    ensures yes <==> b == 0x79 || b == 0x59
  {
    AsChar(b) == 'y' || AsChar(b) == 'Y'
  }

  /** The outcome of one confirmation read. */
  datatype Answer = Answered(yes: bool, rest: seq<byte>) | ReadFailed

  /**
   * Reads the answer byte: fails exactly when no input is left, and
   * otherwise consumes one byte, whose value alone decides the answer.
   */
  function ReadAnswer(input: seq<byte>): (a: Answer)
    ensures a.ReadFailed? <==> input == []
    ensures a.Answered? ==> a.rest == input[1..] && (a.yes <==> input[0] == 0x79 || input[0] == 0x59)
  {
    if input == [] then ReadFailed else Answered(Approves(input[0]), input[1..])
  }

  /** Answering `y` and pressing Enter leaves the newline as the next answer, which declines. */
  lemma AnswerLeavesNewline(input: seq<byte>)
    requires input == [0x79, 0x0A]
    ensures ReadAnswer(input) == Answered(true, [0x0A])
    ensures ReadAnswer([0x0A]) == Answered(false, [])
  {
  }
}
