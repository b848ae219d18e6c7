/** How the API calls of an operation are answered. */
module Answering {

  /** One entry a call, in order; an operation that needs more calls than it has answers for is cut short. */
  type Answers = seq<bool>

  /** How many calls are answered before the first that is not. */
  function Answered(answers: Answers): nat {
    if answers != [] && answers[0] then 1 + Answered(answers[1..]) else 0
  }

  lemma {:induction false} AllAnswered(answers: Answers)
    requires forall i :: 0 <= i < |answers| ==> answers[i]
    ensures Answered(answers) == |answers|
  {
    if answers != [] { AllAnswered(answers[1..]); }
  }

  datatype Status = Fine | InvalidArgument | NotFound | Internal | Stopped

  /** A call on state `w` whose effect, if it is answered, is `v`; an error answer has no effect. */
  function Write<S>(w: S, v: S, answers: Answers): (S, Answers, Status) {
    if answers == [] then (w, [], Stopped)
    else if answers[0] then (v, answers[1..], Fine)
    else (w, answers[1..], Internal)
  }
}
