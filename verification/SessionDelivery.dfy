/** A session in which nothing fails always comes to its end: some step is always possible,
    every step brings the end closer, and the end is the task's own value. */
module SessionDelivery {
  import opened Wrappers
  import opened Framing
  import opened JsonValues
  import opened Registry
  import opened Machine
  import opened Session
  import opened SessionInvariant
  import opened SessionTrace
  import opened SessionTheorems

  /** Steps that are not failures. Transfers may still be as short as they like. */
  predicate Smooth(c: Call, a: Action) {
    match a
    case Create(ok) => ok
    case Launch(pid, started) => pid.Some? && started
    case Accept(ok) => ok
    case CheckPeer(_, ownPath, peerPath) => ownPath == peerPath
    case CheckHost(_, ownPath, peerPath) => ownPath == peerPath
    case EndTask(outcome) => outcome.Value? && c.Answerable(outcome.value)
    case FailSend(_) => false
    case FailReceive => false
    case KillCaller => false
    case Refuse => false
    case FailRequest => false
    case FailRespond(_) => false
    case KillWorker => false
    case _ => true
  }

  /** The texts involved can be carried, and `false` can be answered. */
  ghost predicate Sound(c: Call) {
    c.Valid() && Faithful(c.codec) && c.Sendable() && c.Answerable(Bool(false))
  }

  // ------------------------------------------------------------------ what smooth runs keep

  predicate SmoothCaller(c: Call, s: State) {
    && !s.caller.Raised? && !s.caller.CallerDied?
    && (s.caller.Returned? ==> s.caller.stage.Answered?)
    && (s.worker.Absent? <==> s.caller.Creating? || s.caller.Launching?)
    && (s.worker.Starting? ==> s.caller.Accepting? && s.pipe.path && Listening(s))
    && (s.caller.Launching? ==> s.pipe.path && Listening(s))
    && (s.pipe.connected <==> !s.worker.Absent? && !s.worker.Starting?)
    && (s.caller.Accepting? ==> Listening(s))
    && (s.caller.Returned? ==> s.worker.Exited?)
  }

  predicate SmoothWorker(c: Call, s: State) {
    && !s.worker.Escaped? && !s.worker.WorkerDied?
    && (s.worker.Exited? ==> s.worker.status == 0 && s.answer.Some? && c.Answerable(s.answer.value) && s.response == c.AnswerFrame(s.answer.value))
    && (s.worker.Answering? ==> c.Answerable(s.worker.value))
    && (s.worker.Loading? ==> s.worker.request == c.Request())
    && (s.worker.Dispatching? ==> s.worker.request == c.Request())
  }

  ghost predicate SmoothInv(c: Call, s: State) {
    Inv(c, s) && SmoothCaller(c, s) && SmoothWorker(c, s)
  }

  lemma ConnectSmooth(c: Call, s: State, a: Action)
    requires Sound(c) && SmoothInv(c, s) && Smooth(c, a) && ConnectStep(c, s, a).Some?
    ensures SmoothCaller(c, ConnectStep(c, s, a).value) && SmoothWorker(c, ConnectStep(c, s, a).value)
  {
  }

  lemma ExchangeSmooth(c: Call, s: State, a: Action)
    requires SmoothInv(c, s) && Smooth(c, a) && ExchangeStep(c, s, a).Some?
    ensures SmoothCaller(c, ExchangeStep(c, s, a).value) && SmoothWorker(c, ExchangeStep(c, s, a).value)
  {
    if s.caller.Receiving? && a.Finish? {
      WholeAnswer(c, s);
    }
  }

  /** Having read a whole message, the caller has read all the worker ever sends. */
  lemma WholeAnswer(c: Call, s: State)
    requires AnswerInv(c, s) && SmoothWorker(c, s) && Complete(Response(s))
    ensures s.worker.Exited?
  {
    CompletePrefix(Response(s), c.codec.dump(s.answer.value).value);
  }

  lemma AttachSmooth(c: Call, s: State, a: Action)
    requires Sound(c) && SmoothInv(c, s) && Smooth(c, a) && AttachStep(c, s, a).Some?
    ensures SmoothCaller(c, AttachStep(c, s, a).value) && SmoothWorker(c, AttachStep(c, s, a).value)
  {
    if s.worker.AwaitingRequest? && a.ParseRequest? {
      TakenFrame(c, s);
    }
  }

  lemma TaskSmooth(c: Call, s: State, a: Action)
    requires Sound(c) && SmoothCaller(c, s) && SmoothWorker(c, s) && Smooth(c, a) && TaskStep(c, s, a).Some?
    ensures SmoothCaller(c, TaskStep(c, s, a).value) && SmoothWorker(c, TaskStep(c, s, a).value)
  {
    TaskFrames(c, s, a);
  }

  lemma AnswerSmooth(c: Call, s: State, a: Action)
    requires SmoothInv(c, s) && Smooth(c, a) && Responsive(s.worker) && AnswerStep(c, s, a).Some?
    ensures SmoothCaller(c, AnswerStep(c, s, a).value) && SmoothWorker(c, AnswerStep(c, s, a).value)
  {
    AnswerFrames(c, s, a);
    if s.worker.Responding? && a.Respond? {
      ResponseGrows(c, s, s.worker.value, a.n);
    }
  }

  lemma StepSmooth(c: Call, s: State, a: Action)
    requires Sound(c) && SmoothInv(c, s) && Smooth(c, a) && Step(c, s, a).Some?
    ensures SmoothInv(c, Step(c, s, a).value)
  {
    StepKeeps(c, s, a);
    if CallerActs(a) {
      if s.caller.Sending? || s.caller.Receiving? {
        ExchangeSmooth(c, s, a);
      } else {
        ConnectSmooth(c, s, a);
      }
    } else if Attaching(s.worker) {
      AttachSmooth(c, s, a);
    } else if Responsive(s.worker) {
      AnswerSmooth(c, s, a);
    } else {
      TaskSmooth(c, s, a);
    }
  }

  // ------------------------------------------------------------------ getting closer

  function CallerLeft(caller: Caller): nat {
    match caller
    case Creating => 7
    case Launching => 6
    case Accepting(_) => 5
    case Checking(_) => 4
    case Composing => 3
    case Sending => 2
    case Receiving => 1
    case _ => 0
  }

  function WorkerLeft(worker: Worker): nat {
    match worker
    case Absent => 10
    case Starting => 9
    case Unlinking => 8
    case CheckingHost => 7
    case AwaitingRequest => 6
    case Loading(_) => 5
    case Dispatching(_, _) => 4
    case Running => 3
    case Answering(_) => 2
    case Responding(_) => 1
    case _ => 0
  }

  function PhasesLeft(s: State): nat {
    CallerLeft(s.caller) + WorkerLeft(s.worker)
  }

  function AnswerSize(c: Call, s: State): nat {
    if s.answer.Some? && c.Answerable(s.answer.value) then |c.AnswerFrame(s.answer.value)| else 0
  }

  /** Bytes still to be sent and to be read, in both directions. */
  function BytesLeft(c: Call, s: State): int
    requires c.Sendable()
  {
    |c.Frame()| - |s.request| + |c.Frame()| - s.requestRead
    + AnswerSize(c, s) - |s.response| + AnswerSize(c, s) - s.responseRead
  }

  predicate Closer(c: Call, s: State, t: State)
    requires c.Sendable()
  {
    PhasesLeft(t) < PhasesLeft(s) || (PhasesLeft(t) == PhasesLeft(s) && BytesLeft(c, t) < BytesLeft(c, s))
  }

  lemma BytesLeftNat(c: Call, s: State)
    requires c.Sendable() && RequestInv(c, s) && AnswerInv(c, s)
    ensures BytesLeft(c, s) >= 0
  {
  }

  lemma ConnectCloser(c: Call, s: State, a: Action)
    requires c.Sendable() && Smooth(c, a) && ConnectStep(c, s, a).Some?
    requires s.caller.Launching? ==> s.worker.Absent?
    ensures Closer(c, s, ConnectStep(c, s, a).value)
  {
  }

  lemma ExchangeCloser(c: Call, s: State, a: Action)
    requires c.Sendable() && RequestInv(c, s) && Smooth(c, a) && ExchangeStep(c, s, a).Some?
    ensures Closer(c, s, ExchangeStep(c, s, a).value)
  {
    CarryFor(c, s, a);
  }

  lemma AttachCloser(c: Call, s: State, a: Action)
    requires c.Sendable() && Smooth(c, a) && AttachStep(c, s, a).Some?
    ensures Closer(c, s, AttachStep(c, s, a).value)
  {
  }

  lemma TaskCloser(c: Call, s: State, a: Action)
    requires c.Sendable() && Smooth(c, a) && TaskStep(c, s, a).Some?
    ensures Closer(c, s, TaskStep(c, s, a).value)
  {
  }

  lemma AnswerCloser(c: Call, s: State, a: Action)
    requires c.Sendable() && Smooth(c, a) && Responsive(s.worker) && AnswerStep(c, s, a).Some?
    requires s.worker.Responding? ==> s.answer == Some(s.worker.value)
    ensures Closer(c, s, AnswerStep(c, s, a).value)
  {
  }

  /** A step either takes one of the two processes to a later phase or moves bytes. */
  lemma StepCloser(c: Call, s: State, a: Action)
    requires Sound(c) && SmoothInv(c, s) && Smooth(c, a) && Step(c, s, a).Some?
    ensures Closer(c, s, Step(c, s, a).value)
  {
    if CallerActs(a) {
      if s.caller.Sending? || s.caller.Receiving? {
        ExchangeCloser(c, s, a);
      } else {
        ConnectCloser(c, s, a);
      }
    } else if Attaching(s.worker) {
      AttachCloser(c, s, a);
    } else if Responsive(s.worker) {
      AnswerCloser(c, s, a);
    } else {
      TaskCloser(c, s, a);
    }
  }

  // ------------------------------------------------------------------ never stuck

  lemma AttachMoves(c: Call, s: State) returns (a: Action)
    requires SmoothInv(c, s) && s.pipe.connected && Attaching(s.worker) && Delivered(c, s)
    ensures Smooth(c, a) && !CallerActs(a) && Step(c, s, a).Some?
  {
    if s.worker.Unlinking? {
      a := Unlink;
    } else if s.worker.CheckingHost? {
      a := CheckHost(0, "", "");
    } else if Taken(s) == c.Frame() {
      CompleteIsFrame(c.Frame());
      a := ParseRequest;
    } else {
      StrictPrefixIncomplete(Taken(s), c.message.value);
      a := TakeRequest(Need(Taken(s)));
    }
  }

  lemma TaskMoves(c: Call, s: State) returns (a: Action)
    requires Sound(c) && (s.worker.Loading? || s.worker.Dispatching? || s.worker.Running?)
    ensures Smooth(c, a) && !CallerActs(a) && Step(c, s, a).Some?
  {
    match s.worker
    case Loading(_) => a := Load(false);
    case Dispatching(_, _) => a := Dispatch;
    case Running => a := EndTask(Value(Bool(false)));
  }

  lemma AnswerMoves(c: Call, s: State) returns (a: Action)
    requires AnswerInv(c, s) && Responsive(s.worker)
    ensures Smooth(c, a) && !CallerActs(a) && Step(c, s, a).Some?
  {
    match s.worker
    case Answering(_) => a := DumpAnswer;
    case Responding(value) => a := Respond(|c.AnswerFrame(value)| - |s.response|);
  }

  lemma CallerReceives(c: Call, s: State) returns (a: Action)
    requires SmoothInv(c, s) && s.caller.Receiving? && s.worker.Exited?
    ensures Smooth(c, a) && CallerActs(a) && Step(c, s, a).Some?
  {
    if Response(s) == s.response {
      CompleteIsFrame(s.response);
      a := Finish;
    } else {
      StrictPrefixIncomplete(Response(s), c.codec.dump(s.answer.value).value);
      a := Receive(Need(Response(s)));
    }
  }

  lemma CallerMoves(c: Call, s: State) returns (a: Action)
    requires Sound(c) && SmoothInv(c, s) && !s.caller.Receiving? && !s.caller.Returned?
    ensures Smooth(c, a) && Step(c, s, a).Some?
  {
    match s.caller
    case Creating => a := Create(true);
    case Launching => a := Launch(Some(0), true);
    case Accepting(_) => a := if s.pipe.connected then Accept(true) else Connect;
    case Checking(_) => a := CheckPeer(0, "", "");
    case Composing => a := Compose;
    case Sending => a := Send(|c.Frame()| - |s.request|);
    case _ => assert false;
  }

  lemma NeverStuck(c: Call, s: State) returns (a: Action)
    requires Sound(c) && SmoothInv(c, s) && !s.caller.Returned?
    ensures Smooth(c, a) && Step(c, s, a).Some?
  {
    if !s.caller.Receiving? {
      a := CallerMoves(c, s);
    } else if s.worker.Exited? {
      a := CallerReceives(c, s);
    } else if Attaching(s.worker) {
      a := AttachMoves(c, s);
    } else if Responsive(s.worker) {
      a := AnswerMoves(c, s);
    } else {
      a := TaskMoves(c, s);
    }
  }

  // ------------------------------------------------------------------ the end

  /** A run of steps none of which is a failure. */
  ghost predicate SmoothRun(c: Call, s: State, actions: seq<Action>, t: State) {
    Run(Stepper(c), s, actions) == Some(t) && forall a <- actions :: Smooth(c, a)
  }

  lemma {:induction false} SmoothRunKeeps(c: Call, s: State, actions: seq<Action>, t: State)
    requires Sound(c) && SmoothInv(c, s) && SmoothRun(c, s, actions, t)
    ensures SmoothInv(c, t)
    decreases |actions|
  {
    if actions != [] {
      var u := Step(c, s, actions[0]).value;
      StepSmooth(c, s, actions[0]);
      SmoothRunKeeps(c, u, actions[1..], t);
    }
  }

  /** Every run without failures, however the two processes are interleaved and however short
      the transfers, can be brought to its end without failures; and at any end it reaches, the
      caller has the value of the one task run, folded to null unless it is an object. */
  lemma {:induction false} Completes(c: Call, s: State)
    requires Sound(c) && SmoothInv(c, s)
    ensures exists actions, t :: SmoothRun(c, s, actions, t) && t.caller.Returned?
    decreases PhasesLeft(s), if BytesLeft(c, s) >= 0 then BytesLeft(c, s) else 0
  {
    if s.caller.Returned? {
      assert SmoothRun(c, s, [], s);
    } else {
      var a := NeverStuck(c, s);
      var u := Step(c, s, a).value;
      StepSmooth(c, s, a);
      StepCloser(c, s, a);
      BytesLeftNat(c, s);
      BytesLeftNat(c, u);
      Completes(c, u);
      var actions, t :| SmoothRun(c, u, actions, t) && t.caller.Returned?;
      RunOne(Stepper(c), s, a);
      RunOn(Stepper(c), s, [a], actions);
      assert SmoothRun(c, s, [a] + actions, t);
    }
  }

  lemma NameWhenOver(c: Call, s: State)
    requires Reachable(c, s) && Ended(s.caller) && Gone(s.worker)
    ensures !s.pipe.path
  {
    LeadsSelf(c, s);
    match c.platform
    case Linux => NameGone(c, s, s);
    case Windows => WindowsNameGone(c, s, s);
  }

  /** What the caller returns is the value the task ended with, or null if that is no object or if
      no task was registered. */
  ghost predicate BringsTheValue(c: Call, actions: seq<Action>, s: State) {
    || (exists value, task ::
          && EndTask(Value(value)) in actions && Runs(s.log) == [Ran(task, c.params)]
          && s.caller == Returned(if value.Object? then value else Null, Answered))
    || (exists registers ::
          && Load(registers) in actions && NoneRegistered(c, registers)
          && s.caller == Returned(Null, Answered))
  }

  lemma Delivery(c: Call, actions: seq<Action>, s: State)
    requires Sound(c) && SmoothRun(c, START, actions, s)
    ensures exists more, t :: SmoothRun(c, s, more, t) && t.caller.Returned?
    ensures s.caller.Returned? ==> s.worker == Exited(0) && !s.pipe.path && BringsTheValue(c, actions, s)
  {
    SmoothRunKeeps(c, START, actions, s);
    Completes(c, s);
    if s.caller.Returned? {
      TracedInv(c, actions, s);
      NameWhenOver(c, s);
      AnswerReturned(c, s);
      AnswerOrigin(c, actions, s);
      if EndTask(Value(s.answer.value)) in actions {
        RightTaskRuns(c, actions, s);
      }
    }
  }
}
