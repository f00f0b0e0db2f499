// Stream ID allocation with a real 32-bit counter: which ID the k-th Request or Push
// of a connection computes, when it is refused, and when IDs begin to repeat.

module Allocation {
  import opened Protocol
  import opened Connection
  import opened Freshness

  const WORD := 0x1_0000_0000
  const PERIOD := 0x8000_0000

  /** The counters after k allocations. */
  function RequestCounter(k: nat): uint32 {
    if k == 0 then 0 else NextRequestID(RequestCounter(k - 1))
  }

  function PushCounter(k: nat): uint32 {
    if k == 0 then 0 else NextPushID(PushCounter(k - 1))
  }

  lemma {:induction false} RequestCounterIs(k: nat)
    ensures k > 0 ==> RequestCounter(k) == (2 * k - 1) % WORD
  {
    hide RequestCounter, PushCounter, NextRequestID, NextPushID;
    if k > 1 {
      RequestCounterIs(k - 1);
      CounterNext(k);
      AfterOdd(2 * k - 3);
    } else if k == 1 {
      CounterNext(1);
      FirstRequest();
    }
  }

  lemma FirstRequest()
    ensures NextRequestID(0) == 1
  {
  }

  lemma AfterOdd(a: nat)
    requires a % 2 == 1
    ensures NextRequestID(a % WORD) == (a + 2) % WORD
  {
    NotZero(a);
    AddTwo(a);
  }

  lemma CounterNext(k: nat)
    requires k > 0
    ensures RequestCounter(k) == NextRequestID(RequestCounter(k - 1)) && RequestCounter(0) == 0
    ensures PushCounter(k) == NextPushID(PushCounter(k - 1)) && PushCounter(0) == 0
  {
    hide NextRequestID, NextPushID;
  }

  lemma NotZero(a: nat)
    requires a % 2 == 1
    ensures a % WORD != 0
  {
  }

  lemma AddTwo(a: nat)
    ensures (a % WORD + 2) % WORD == (a + 2) % WORD
  {
  }

  lemma {:induction false} PushCounterIs(k: nat)
    ensures PushCounter(k) == (2 * k) % WORD
  {
    if k > 0 {
      PushCounterIs(k - 1);
      AddTwo(2 * k - 2);
      CounterNext(k);
      hide PushCounter;
    }
  }

  /** Two allocations compute the same ID exactly when they are a multiple of 2^31
      apart; within one period, the IDs that pass the range check are the first 2^30
      for requests, and for pushes the first 2^30 - 1 and then the 0 of the 2^31st. */
  lemma IDsRepeatExactly(j: nat, k: nat)
    requires 0 < j <= k
    ensures RequestCounter(j) == RequestCounter(k) <==> (k - j) % PERIOD == 0
    ensures PushCounter(j) == PushCounter(k) <==> (k - j) % PERIOD == 0
  {
    RequestCounterIs(j);
    RequestCounterIs(k);
    PushCounterIs(j);
    PushCounterIs(k);
    hide RequestCounter, PushCounter;
    SameRemainder(2 * j - 1, 2 * k - 1);
    SameRemainder(2 * j, 2 * k);
    Halve(k - j);
  }

  lemma SameRemainder(a: nat, b: nat)
    ensures a % WORD == b % WORD <==> (b - a) % WORD == 0
  {
  }

  lemma Halve(d: nat)
    ensures (2 * d) % WORD == 0 <==> d % PERIOD == 0
  {
  }

  lemma ValidExactly(k: nat)
    requires 0 < k <= PERIOD
    ensures ValidID(RequestCounter(k)) <==> k <= 0x4000_0000
    ensures ValidID(PushCounter(k)) <==> k < 0x4000_0000 || k == PERIOD
    ensures RequestCounter(k) == 2 * k - 1
    ensures k < PERIOD ==> PushCounter(k) == 2 * k
    ensures k == PERIOD ==> PushCounter(k) == 0
  {
    RequestCounterIs(k);
    PushCounterIs(k);
    hide RequestCounter, PushCounter;
  }

  /** After that many, the counters start again and pass the range check again. */
  lemma WrappedIDsPass(k: nat)
    requires PERIOD < k < PERIOD + 0x4000_0000
    ensures RequestCounter(k) == RequestCounter(k - PERIOD) && ValidID(RequestCounter(k))
    ensures PushCounter(k) == PushCounter(k - PERIOD) && ValidID(PushCounter(k))
  {
    IDsRepeatExactly(k - PERIOD, k);
    ValidExactly(k - PERIOD);
    hide RequestCounter, PushCounter;
  }

  // ------------------------------------------------------------------- in a run

  /** The calls that take an ID, whether or not it is then in range. */
  predicate Allocates(c: Conn, input: Input) {
    && !c.closed
    && ((input.CallRequest? && !c.server && input.asked.priority <= 7 && input.asked.urlOk)
        || (input.CallPush? && c.server && input.urlOk))
  }

  function Allocations(c: Conn, inputs: seq<Input>): nat
    decreases inputs
  {
    if inputs == [] then 0
    else (if Allocates(c, inputs[0]) then 1 else 0) + Allocations(Step(c, inputs[0]), inputs[1..])
  }

  /** The counter that this side allocates from has been moved k times, and the other
      one only by frames with valid IDs. */
  ghost predicate Counted(c: Conn, k: nat) {
    if c.server then c.lastPush == PushCounter(k) && ValidID(c.lastRequest)
    else c.lastRequest == RequestCounter(k) && ValidID(c.lastPush)
  }

  lemma FrameKeepsCount(c: Conn, f: F, choice: Choice, k: nat)
    requires Counted(c, k)
    ensures Counted(Receive(c, f, choice).0, k)
  {
    if Receive(c, f, choice).1 == Accepted {
      AcceptedEffect(c, f, choice);
    } else {
      InboundKeepsEntries(c, f, choice);
    }
    hide Receive, SameKinds, RequestCounter, PushCounter;
  }

  lemma StepCounts(c: Conn, input: Input, k: nat)
    requires Counted(c, k)
    ensures Counted(Step(c, input), if Allocates(c, input) then k + 1 else k)
  {
    if input.Inbound? {
      FrameKeepsCount(c, input.frame, input.choice, k);
      hide Receive, RequestCounter, PushCounter;
    } else if input.CallClose? {
      CloseStreamKeepsEntries(c, input.id);
      hide CloseStream, RequestCounter, PushCounter;
    } else {
      hide Receive, NextRequestID, NextPushID;
    }
  }

  /** In any run: the counter is where that many allocations take it, and the next one
      succeeds exactly when its ID is in range. */
  lemma {:induction false} RunCounts(c: Conn, inputs: seq<Input>, k: nat)
    requires Counted(c, k)
    ensures Counted(Run(c, inputs), k + Allocations(c, inputs))
    decreases inputs
  {
    hide Step, Counted, Allocates;
    if inputs != [] {
      var more := if Allocates(c, inputs[0]) then 1 else 0;
      StepCounts(c, inputs[0], k);
      RunCounts(Step(c, inputs[0]), inputs[1..], k + more);
    }
  }

  lemma NextAllocation(c: Conn, inputs: seq<Input>, input: Input)
    requires Counted(c, 0) && Allocates(Run(c, inputs), input)
    ensures var k := Allocations(c, inputs) + 1;
      var id := if c.server then PushCounter(k) else RequestCounter(k);
      Inserted(Run(c, inputs), input) == (if ValidID(id) then Some(id) else None)
  {
    hide Run, Allocations, RequestCounter, PushCounter, NextRequestID, NextPushID, Receive;
    RunCounts(c, inputs, 0);
    RunKeepsRole(c, inputs);
    AllocatesNext(Run(c, inputs), input);
    CounterNext(Allocations(c, inputs) + 1);
  }

  /** The ID that a call takes is the one after the last. */
  lemma AllocatesNext(c: Conn, input: Input)
    requires Allocates(c, input)
    ensures var id := if c.server then NextPushID(c.lastPush) else NextRequestID(c.lastRequest);
      Inserted(c, input) == if ValidID(id) then Some(id) else None
  {
    hide NextRequestID, NextPushID, Receive, RequestFrames;
  }

  lemma {:induction false} RunKeepsRole(c: Conn, inputs: seq<Input>)
    ensures Run(c, inputs).server == c.server
    decreases inputs
  {
    hide Step;
    if inputs != [] {
      RoleStays(c, inputs[0]);
      RunKeepsRole(Step(c, inputs[0]), inputs[1..]);
    }
  }

  /** Once a counter has gone around, a call does replace an entry: the first ID is
      taken again, whatever stream still has it. */
  lemma WrapReplaces(c: Conn, a: Asked)
    requires Allocates(c, CallRequest(a)) && c.lastRequest == 0xffff_ffff && 1 in c.streams
    ensures Wraps(c, CallRequest(a)) && Inserted(c, CallRequest(a)) == Some(1)
  {
    hide Receive, StartPush, StartPing, CloseStream, RequestFrames;
  }

  /** Runs of fewer than 2^31 steps never carry a counter around. */
  lemma {:induction false} ShortRunsNeverWrap(c: Conn, inputs: seq<Input>, k: nat)
    requires Counted(c, k) && k + |inputs| < PERIOD
    ensures NeverWraps(c, inputs)
    decreases inputs
  {
    hide Step, Allocates, Wraps;
    if inputs != [] {
      StepCounts(c, inputs[0], k);
      NoWrapBelow(c, inputs[0], k);
      ShortRunsNeverWrap(Step(c, inputs[0]), inputs[1..], if Allocates(c, inputs[0]) then k + 1 else k);
    }
  }

  lemma NoWrapBelow(c: Conn, input: Input, k: nat)
    requires Counted(c, k) && k < PERIOD - 1
    ensures !Wraps(c, input)
  {
    if k > 0 {
      ValidExactly(k);
    }
    hide RequestCounter, PushCounter;
    assert k == 0 ==> RequestCounter(0) == 0 && PushCounter(0) == 0 by { CountersStart(); }
  }

  lemma CountersStart()
    ensures RequestCounter(0) == 0 && PushCounter(0) == 0
  {
  }
}
