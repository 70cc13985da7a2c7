/**
 * The client's exception: a stored explanation, read back verbatim, where an
 * empty explanation marks a termination caused by SIGINT or end of input
 * (a clean exit) and any other text a failure.
 */
module ClientException {

  datatype Exception = Exception(explanation: string)
  {
    /** The stored explanation, character for character. */
    function What(): (r: string)
      ensures |r| == |explanation| && forall i :: 0 <= i < |r| ==> r[i] == explanation[i]
    {
      explanation
    }

    /** A termination by SIGINT or end of input is thrown with no explanation. */
    predicate IsSigintOrEofReceived()
      ensures IsSigintOrEofReceived() <==> What() == []
    {
      |explanation| == 0
    }
  }

  /** The text thrown when standard input reports an error. */
  const STDIN_ERROR: string := "stdin error occurred."

  /** How an event handler ends: it returns a code (0 exit successfully, 1 exit
      with failure, 2 keep running) or it throws. */
  datatype Completion = Returned(code: nat) | Raised(e: Exception)

  /** Constructing an exception and reading it back gives the text it was built with. */
  lemma WhatRoundTrip(s: string)
    ensures Exception(s).What() == s
  {
  }

  /** The exception thrown on SIGINT and on a stdin hang-up is a clean exit,
      and one with any text is not. */
  lemma CleanExitIffEmpty(s: string)
    ensures Exception(s).IsSigintOrEofReceived() <==> s == ""
  {
  }
}
