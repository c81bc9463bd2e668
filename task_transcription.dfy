/** The transcription task of the real-effort app: three random characters
    to copy from a distorted image. */
module TaskTranscription {
  import opened Wrappers
  import opened Json
  import opened Text

  const CHARSET: string := "ABCDEFGHIJKLMNOPQRSTUVWXYZ0123456789"
  const LENGTH: nat := 3

  /** `generate_puzzle_fields`; `picks[i]` is the index `random.choice`
      takes for character `i`. */
  function GeneratePuzzleFields(picks: seq<nat>): (r: (string, string))
    requires |picks| == LENGTH && forall i :: 0 <= i < |picks| ==> picks[i] < |CHARSET|
    ensures |r.0| == LENGTH && forall i :: 0 <= i < LENGTH ==> r.0[i] in CHARSET
    ensures r.1 == r.0
  {
    var text := seq(LENGTH, i requires 0 <= i < LENGTH => CHARSET[picks[i]]);
    (text, text)
  }

  /** `is_correct`, which the decoding task shares word for word:
      `solution.lower() == response.lower()`; a response that is not a
      string has no `lower()`. */
  function IsCorrect(response: Value, solution: string): (r: Result<bool>)
    ensures r.Err? <==> !response.Str?
    ensures r.Err? ==> r.error == AttributeError
  {
    if response.Str? then Ok(Lower(solution) == Lower(response.s)) else Err(AttributeError)
  }

  /** Any casing of the solution is accepted, and the casing of a response
      never matters. */
  lemma IsCorrectIgnoresCase(solution: string, response: string)
    ensures IsCorrect(Str(solution), solution) == Ok(true)
    ensures IsCorrect(Str(Lower(solution)), solution) == Ok(true)
    ensures IsCorrect(Str(Lower(response)), solution) == IsCorrect(Str(response), solution)
  {
    LowerIdempotent(solution);
    LowerIdempotent(response);
  }

  /** A different character (beyond case) is refused. */
  lemma IsCorrectRefusesOtherText(solution: string, response: string, i: nat)
    requires i < |solution| && |response| == |solution| && LowerChar(response[i]) != LowerChar(solution[i])
    ensures IsCorrect(Str(response), solution) == Ok(false)
  {
    assert Lower(response)[i] != Lower(solution)[i];
  }
}
