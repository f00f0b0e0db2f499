// StreamState of interfaces.go: four values behind four transitions, which are two
// independent booleans that only ever become true.

module StreamStates {
  type State = s: int | 0 <= s < 4

  const OPEN: State := 0
  const HALF_CLOSED_HERE: State := 1
  const HALF_CLOSED_THERE: State := 2
  const CLOSED: State := 3

  predicate ClosedHere(s: State) {
    s == CLOSED || s == HALF_CLOSED_HERE
  }

  predicate ClosedThere(s: State) {
    s == CLOSED || s == HALF_CLOSED_THERE
  }

  function CloseHere(s: State): State {
    if s == OPEN then HALF_CLOSED_HERE
    else if s == HALF_CLOSED_THERE then CLOSED
    else s
  }

  function CloseThere(s: State): State {
    if s == OPEN then HALF_CLOSED_THERE
    else if s == HALF_CLOSED_HERE then CLOSED
    else s
  }

  datatype Transition = Here | There | Both

  function Step(s: State, t: Transition): State {
    match t
    case Here => CloseHere(s)
    case There => CloseThere(s)
    case Both => CLOSED
  }

  function Run(s: State, ts: seq<Transition>): State
    decreases ts
  {
    if ts == [] then s else Run(Step(s, ts[0]), ts[1..])
  }

  /** The refinement: over any run of transitions, each side is closed exactly when it
      was at the start or some transition closed it; and the two sides determine the
      state, so nothing else is in it. */
  lemma {:induction false} RefinesTwoBooleans(s: State, ts: seq<Transition>)
    ensures ClosedHere(Run(s, ts)) <==> ClosedHere(s) || Here in ts || Both in ts
    ensures ClosedThere(Run(s, ts)) <==> ClosedThere(s) || There in ts || Both in ts
    ensures var r := Run(s, ts);
      forall t: State :: ClosedHere(t) == ClosedHere(r) && ClosedThere(t) == ClosedThere(r) ==> t == r
    decreases ts
  {
    if ts != [] {
      RefinesTwoBooleans(Step(s, ts[0]), ts[1..]);
      assert forall t :: t in ts <==> t == ts[0] || t in ts[1..];
    }
  }

  class StreamState {
    var s: State

    constructor ()
      ensures s == OPEN
    {
      s := OPEN;
    }

    method Close()
      modifies this
      ensures s == Step(old(s), Both)
    {
      s := CLOSED;
    }

    method CloseHere()
      modifies this
      ensures s == Step(old(s), Here)
    {
      if s == OPEN {
        s := HALF_CLOSED_HERE;
      } else if s == HALF_CLOSED_THERE {
        s := CLOSED;
      }
    }

    method CloseThere()
      modifies this
      ensures s == Step(old(s), There)
    {
      if s == OPEN {
        s := HALF_CLOSED_THERE;
      } else if s == HALF_CLOSED_HERE {
        s := CLOSED;
      }
    }
  }
}
