/** CallTask and Process as the programs they are: each does its own steps one after another
    while the other process may do any of its own in between. Every way they can go is a run
    of the session, so what holds of all runs holds of them. */
module SessionProgram {
  import opened Wrappers
  import opened Framing
  import opened JsonValues
  import opened Machine
  import opened Session
  import opened SessionInvariant
  import opened SessionTrace
  import opened SessionTheorems
  import opened Launch

  /** The two processes, the pipe and the system, with the run that led here. */
  class World {
    const call: Call
    var state: State
    ghost var trace: seq<Action>

    ghost predicate Valid()
      reads this
    {
      Run(Stepper(call), START, trace) == Some(state)
    }

    constructor (call: Call)
      ensures this.call == call && Valid() && state == START
    {
      this.call, state, trace := call, START, [];
    }

    lemma Kept()
      requires Valid()
      ensures Reachable(call, state) && Inv(call, state)
    {
      ReachableInv(call, state);
    }

    method Do(a: Action)
      requires Valid() && Step(call, state, a).Some?
      modifies this
      ensures Valid() && Step(call, old(state), a) == Some(state) && trace == old(trace) + [a]
    {
      RunOn(Stepper(call), START, trace, [a]);
      RunOne(Stepper(call), state, a);
      trace := trace + [a];
      state := Step(call, state, a).value;
    }

    /** Whatever the worker does while the caller is elsewhere. */
    method WorkerTurns()
      requires Valid()
      modifies this
      ensures Valid() && state.caller == old(state.caller)
      ensures state.request == old(state.request) && state.responseRead == old(state.responseRead)
      ensures old(state.response) <= state.response
    {
      var turns: nat :| true;
      while turns > 0
        invariant Valid() && state.caller == old(state.caller)
        invariant state.request == old(state.request) && state.responseRead == old(state.responseRead)
        invariant old(state.response) <= state.response
      {
        var a: Action :| true;
        if !CallerActs(a) && Step(call, state, a).Some? {
          WorkerFrames(call, state, a);
          Do(a);
        }
        turns := turns - 1;
      }
    }

    /** Whatever the caller does while the worker is elsewhere. */
    method CallerTurns()
      requires Valid() && !state.worker.Absent?
      modifies this
      ensures Valid() && state.worker == old(state.worker) && state.requestRead == old(state.requestRead)
      ensures state.response == old(state.response) && old(state.request) <= state.request
    {
      var turns: nat :| true;
      while turns > 0
        invariant Valid() && state.worker == old(state.worker) && state.requestRead == old(state.requestRead)
        invariant state.response == old(state.response) && old(state.request) <= state.request
      {
        var a: Action :| true;
        if CallerActs(a) && Step(call, state, a).Some? {
          Kept();
          CallerFrames(call, state, a);
          Do(a);
        }
        turns := turns - 1;
      }
    }

    // ---------------------------------------------------------------- the caller's set-up

    method CreatePipe() returns (ok: bool)
      requires Valid() && state.caller.Creating?
      modifies this
      ensures Valid() && state.caller == if ok then Launching else Returned(Null, NoPipe)
      ensures Create(ok) in trace
      ensures state.request == old(state.request) && state.responseRead == old(state.responseRead)
    {
      ok := *;
      Do(Create(ok));
    }

    /** What the system makes of the arguments is in Launch; here only whether it obliges. */
    method LaunchElevatedService(arguments: seq<string>) returns (pid: Option<nat>)
      requires Valid() && state.caller.Launching?
      requires exists configured :: arguments == CallArguments(call.sessionId, configured)
      modifies this
      ensures Valid()
      ensures state.caller == if pid.Some? then Accepting(pid.value) else Returned(Null, NotLaunched)
      ensures Launch(pid, true) in trace || Launch(pid, false) in trace
      ensures state.request == old(state.request) && state.responseRead == old(state.responseRead)
    {
      var started: bool := *;
      var p: nat :| true;
      var known: bool := *;
      pid := if known then Some(p) else None;
      Do(Launch(pid, started));
    }

    method AcceptPeer() returns (ok: bool)
      requires Valid() && state.caller.Accepting?
      modifies this
      ensures Valid()
      ensures state.caller == if ok then Checking(old(state.caller).pid) else Returned(Null, NotAccepted)
      ensures Accept(ok) in trace
      ensures state.request == old(state.request) && state.responseRead == old(state.responseRead)
    {
      WorkerTurns();
      ok := *;
      ok := ok && state.pipe.connected;
      Do(Accept(ok));
    }

    /** The peer's process id and the two executables' paths, and what the caller makes of them. */
    method IdentifyPeer() returns (remote: nat, ownPath: string, peerPath: string)
      requires Valid() && state.caller.Checking?
      modifies this
      ensures Valid()
      ensures state.caller == if old(state.caller).pid != remote && ownPath != peerPath
                              then Returned(Null, PeerRefused) else Composing
      ensures CheckPeer(remote, ownPath, peerPath) in trace
      ensures state.request == old(state.request) && state.responseRead == old(state.responseRead)
    {
      WorkerTurns();
      remote :| true;
      ownPath :| true;
      peerPath :| true;
      Do(CheckPeer(remote, ownPath, peerPath));
    }

    method DumpRequest()
      requires Valid() && state.caller.Composing?
      modifies this
      ensures Valid() && state.request == [] && state.responseRead == old(state.responseRead)
      ensures state.caller == if call.message.None? then Raised
                              else if !call.Sendable() then Returned(Null, NotSent) else Sending
    {
      Kept();
      Do(Compose);
    }

    // ---------------------------------------------------------------- the caller's pipe end

    /** One write of at most `limit` more bytes of the request; None if it fails. */
    method Write(limit: nat) returns (n: Option<nat>)
      requires Valid() && state.caller.Sending? && call.Sendable() && 0 < limit <= |call.Frame()| - |state.request|
      modifies this
      ensures Valid()
      ensures n.Some? ==> 0 < n.value <= limit && |state.request| == old(|state.request|) + n.value
      ensures n.Some? ==> state.responseRead == old(state.responseRead)
      ensures n.Some? ==> state.caller == if |state.request| == |call.Frame()| then Receiving else Sending
      ensures n.None? ==> state.caller == Returned(Null, NotSent)
    {
      WorkerTurns();
      Kept();
      var failed: bool := *;
      if failed {
        var moved: nat :| moved <= limit && (call.platform == Linux ==> moved == 0);
        Do(FailSend(moved));
        return None;
      }
      var count: nat :| 0 < count <= limit;
      CarryKeeps(call, state, count);
      Do(Send(count));
      return Some(count);
    }

    /** WriteAll of the request's bytes up to `end`. */
    method WriteRequest(end: nat) returns (ok: bool)
      requires Valid() && call.Sendable() && |state.request| <= end <= |call.Frame()|
      requires state.caller == if |state.request| == |call.Frame()| then Receiving else Sending
      modifies this
      ensures Valid()
      ensures ok ==> |state.request| == end && state.responseRead == old(state.responseRead)
      ensures ok ==> state.caller == if end == |call.Frame()| then Receiving else Sending
      ensures !ok ==> state.caller == Returned(Null, NotSent)
    {
      while |state.request| < end
        invariant Valid() && |state.request| <= end && state.responseRead == old(state.responseRead)
        invariant state.caller == if |state.request| == |call.Frame()| then Receiving else Sending
        decreases end - |state.request|
      {
        var n := Write(end - |state.request|);
        if n.None? {
          return false;
        }
      }
      return true;
    }

    method SendRequest() returns (ok: bool)
      requires Valid() && state.caller.Sending? && state.request == [] && call.Sendable()
      modifies this
      ensures Valid()
      ensures if ok then state.caller.Receiving? else state.caller == Returned(Null, NotSent)
      ensures ok ==> state.responseRead == old(state.responseRead) && state.request == call.Frame()
      ensures !ok ==> state.request <= call.Frame() && (call.platform == Linux ==> state.request < call.Frame())
    {
      ok := WriteRequest(HEADER_SIZE);
      if ok {
        ok := WriteRequest(|call.Frame()|);
      }
      Kept();
    }

    /** One read of at most `limit` more bytes of the response; None if it fails. */
    method Read(limit: nat) returns (n: Option<nat>)
      requires Valid() && state.caller.Receiving? && state.responseRead <= |state.response|
      requires Incomplete(Response(state)) && 0 < limit <= Need(Response(state))
      modifies this
      ensures Valid() && state.responseRead <= |state.response|
      ensures n.Some? ==> state.caller.Receiving? && 0 < n.value <= limit
      ensures n.Some? ==> |Response(state)| == old(|Response(state)|) + n.value && old(Response(state)) <= Response(state)
      ensures n.None? ==> state.caller == Returned(Null, NoResponse)
    {
      ghost var got := Response(state);
      WorkerTurns();
      assert Response(state) == got;
      var failed: bool := *;
      if failed || state.responseRead == |state.response| {
        Do(FailReceive);
        return None;
      }
      var count: nat :| 0 < count <= limit && state.responseRead + count <= |state.response|;
      Do(Receive(count));
      return Some(count);
    }

    /** ReadAll of the response's bytes up to `end`. */
    method ReadResponse(end: nat) returns (ok: bool)
      requires Valid() && state.caller.Receiving? && state.responseRead <= |state.response|
      requires Incomplete(Response(state)) && end == |Response(state)| + Need(Response(state))
      modifies this
      ensures Valid() && state.responseRead <= |state.response|
      ensures ok ==> state.caller.Receiving? && |Response(state)| == end && old(Response(state)) <= Response(state)
      ensures !ok ==> state.caller == Returned(Null, NoResponse)
    {
      ghost var got := Response(state);
      while state.responseRead < end
        invariant Valid() && state.caller.Receiving? && state.responseRead <= |state.response|
        invariant got <= Response(state) && |Response(state)| <= end
        decreases end - state.responseRead
      {
        NeedWithin(got, Response(state));
        var n := Read(end - state.responseRead);
        if n.None? {
          return false;
        }
      }
      return true;
    }

    method RecvResponse() returns (payload: Option<Payload>)
      requires Valid() && state.caller.Receiving? && state.responseRead == 0
      modifies this
      ensures Valid()
      ensures payload.Some? ==> state.caller.Receiving? && state.responseRead <= |state.response|
      ensures payload.Some? ==> Complete(Response(state)) && payload.value == Response(state)[HEADER_SIZE..]
      ensures payload.None? ==> state.caller == Returned(Null, NoResponse)
    {
      var ok := ReadResponse(HEADER_SIZE);
      if !ok {
        return None;
      }
      var n := Decode32(Response(state));
      assert Response(state)[..HEADER_SIZE] == Response(state);
      if n != 0 {
        ok := ReadResponse(HEADER_SIZE + n);
        if !ok {
          return None;
        }
      }
      return Some(Response(state)[HEADER_SIZE..]);
    }

    method FoldResponse(payload: Payload) returns (result: Json)
      requires Valid() && state.caller.Receiving? && state.responseRead <= |state.response|
      requires Complete(Response(state)) && payload == Response(state)[HEADER_SIZE..]
      modifies this
      ensures Valid() && state.caller == Returned(result, Answered)
    {
      Do(Finish);
      var response := call.codec.parse(payload);
      if response.None? || !response.value.Object? {
        return Null;
      }
      return response.value;
    }

    // ---------------------------------------------------------------- the worker's set-up

    method RefuseToServe()
      requires Valid() && state.worker.Starting?
      modifies this
      ensures Valid() && state.worker == Exited(-1)
    {
      Do(Action.Refuse);
    }

    method OpenPipe() returns (ok: bool)
      requires Valid() && state.worker.Starting?
      modifies this
      ensures Valid() && state.worker == if ok then CheckingHost else Exited(-1)
      ensures state.requestRead == old(state.requestRead) && state.response == old(state.response)
    {
      CallerTurns();
      var connects: bool := *;
      if !connects || !state.pipe.path || !Listening(state) {
        Do(Action.Refuse);
        return false;
      }
      Do(Action.Connect);
      CallerTurns();
      Do(Action.Unlink);
      return true;
    }

    method IdentifyHost() returns (remote: nat, ownPath: string, peerPath: string)
      requires Valid() && state.worker.CheckingHost?
      modifies this
      ensures Valid() && state.worker == if ownPath != peerPath then Exited(-1) else AwaitingRequest
      ensures CheckHost(remote, ownPath, peerPath) in trace
      ensures state.requestRead == old(state.requestRead) && state.response == old(state.response)
    {
      CallerTurns();
      remote :| true;
      ownPath :| true;
      peerPath :| true;
      Do(CheckHost(remote, ownPath, peerPath));
    }

    // ---------------------------------------------------------------- the worker's pipe end

    /** One read of at most `limit` more bytes of the request; None if it fails. */
    method Take(limit: nat) returns (n: Option<nat>)
      requires Valid() && state.worker.AwaitingRequest? && state.requestRead <= |state.request|
      requires Incomplete(Taken(state)) && 0 < limit <= Need(Taken(state))
      modifies this
      ensures Valid() && state.requestRead <= |state.request| && state.response == old(state.response)
      ensures n.Some? ==> state.worker.AwaitingRequest? && 0 < n.value <= limit
      ensures n.Some? ==> |Taken(state)| == old(|Taken(state)|) + n.value && old(Taken(state)) <= Taken(state)
      ensures n.None? ==> state.worker == Exited(-1)
    {
      ghost var got := Taken(state);
      CallerTurns();
      assert Taken(state) == got;
      var failed: bool := *;
      if failed || state.requestRead == |state.request| {
        Do(FailRequest);
        return None;
      }
      var count: nat :| 0 < count <= limit && state.requestRead + count <= |state.request|;
      Do(TakeRequest(count));
      return Some(count);
    }

    /** ReadAll of the request's bytes up to `end`. */
    method ReadRequest(end: nat) returns (ok: bool)
      requires Valid() && state.worker.AwaitingRequest? && state.requestRead <= |state.request|
      requires Incomplete(Taken(state)) && end == |Taken(state)| + Need(Taken(state))
      modifies this
      ensures Valid() && state.requestRead <= |state.request| && state.response == old(state.response)
      ensures ok ==> state.worker.AwaitingRequest? && |Taken(state)| == end && old(Taken(state)) <= Taken(state)
      ensures !ok ==> state.worker == Exited(-1)
    {
      ghost var got := Taken(state);
      while state.requestRead < end
        invariant Valid() && state.worker.AwaitingRequest? && state.requestRead <= |state.request|
        invariant got <= Taken(state) && |Taken(state)| <= end && state.response == old(state.response)
        decreases end - state.requestRead
      {
        NeedWithin(got, Taken(state));
        var n := Take(end - state.requestRead);
        if n.None? {
          return false;
        }
      }
      return true;
    }

    method RecvRequest() returns (payload: Option<Payload>)
      requires Valid() && state.worker.AwaitingRequest? && state.requestRead == 0
      modifies this
      ensures Valid()
      ensures payload.Some? ==> state.worker.AwaitingRequest? && state.requestRead <= |state.request|
      ensures payload.Some? ==> Complete(Taken(state)) && payload.value == Taken(state)[HEADER_SIZE..]
      ensures payload.None? ==> state.worker == Exited(-1)
      ensures state.response == old(state.response)
    {
      var ok := ReadRequest(HEADER_SIZE);
      if !ok {
        return None;
      }
      var n := Decode32(Taken(state));
      assert Taken(state)[..HEADER_SIZE] == Taken(state);
      if n != 0 {
        ok := ReadRequest(HEADER_SIZE + n);
        if !ok {
          return None;
        }
      }
      return Some(Taken(state)[HEADER_SIZE..]);
    }

    /** Parsing the request; a missing module path is an empty one. */
    method ParsePayload(payload: Payload) returns (request: Option<Json>)
      requires Valid() && state.worker.AwaitingRequest? && state.requestRead <= |state.request|
      requires Complete(Taken(state)) && payload == Taken(state)[HEADER_SIZE..]
      modifies this
      ensures Valid() && state.response == old(state.response)
      ensures state.worker == if request.Some? then Loading(request.value) else Exited(-1)
    {
      Do(ParseRequest);
      request := call.codec.parse(payload);
      if request.Some? && TextOr(request.value, "modulePath", "").None? {
        request := None;
      }
    }

    method LoadModule() returns (registers: bool)
      requires Valid() && state.worker.Loading?
      modifies this
      ensures Valid() && state.worker == Dispatching(old(state.worker).request, registers)
      ensures Load(registers) in trace
      ensures state.response == old(state.response)
    {
      CallerTurns();
      registers := *;
      Do(Load(registers));
    }

    /** Looking up the task. */
    method FindTask()
      requires Valid() && state.worker.Dispatching?
      modifies this
      ensures Valid() && state.response == old(state.response)
      ensures state.worker.Running? || state.worker.Answering? || state.worker == Exited(-1)
      ensures forall end :: EndTask(end) !in trace
    {
      CallerTurns();
      NoEndYet(call, trace, state);
      Do(Dispatch);
    }

    static function WorkerAfter(outcome: Outcome): Worker {
      match outcome
      case Value(value) => Answering(value)
      case JsonError => Exited(-1)
      case OtherError => Escaped
    }

    /** However the task ends. */
    method AwaitTask() returns (outcome: Outcome)
      requires Valid() && state.worker.Running?
      modifies this
      ensures Valid() && state.response == old(state.response)
      ensures state.worker == WorkerAfter(outcome)
      ensures EndTask(outcome) in trace && forall end | EndTask(end) in trace :: end == outcome
    {
      CallerTurns();
      NoEndYet(call, trace, state);
      outcome :| true;
      Do(EndTask(outcome));
      assert trace[|trace| - 1] == EndTask(outcome);
    }

    /** Looking up the task and running it. */
    method RunTask() returns (outcome: Outcome)
      requires Valid() && state.worker.Dispatching?
      modifies this
      ensures Valid() && state.response == old(state.response)
      ensures state.worker == WorkerAfter(outcome)
      // It is what the task did end with, if one ran.
      ensures forall end | EndTask(end) in trace :: end == outcome
    {
      FindTask();
      if state.worker.Running? {
        outcome := AwaitTask();
      } else if state.worker.Answering? {
        outcome := Value(state.worker.value);
      } else {
        outcome := JsonError;
      }
    }

    method DumpValue(value: Json)
      requires Valid() && state.worker == Answering(value)
      modifies this
      ensures Valid() && state.response == old(state.response)
      ensures state.worker == if call.codec.dump(value).None? then Exited(-1)
                              else if !call.Answerable(value) then Exited(0) else Responding(value)
    {
      CallerTurns();
      Do(DumpAnswer);
    }

    /** One write of at most `limit` more bytes of the answer; None if it fails. */
    method Put(value: Json, limit: nat) returns (n: Option<nat>)
      requires Valid() && state.worker == Responding(value) && call.Answerable(value)
      requires 0 < limit <= |call.AnswerFrame(value)| - |state.response|
      modifies this
      ensures Valid()
      ensures n.Some? ==> 0 < n.value <= limit && |state.response| == old(|state.response|) + n.value
      ensures n.Some? ==>
        state.worker == if |state.response| == |call.AnswerFrame(value)| then Exited(0) else Responding(value)
      ensures n.None? ==> state.worker == Exited(0)
    {
      CallerTurns();
      var failed: bool := *;
      if failed {
        var moved: nat :| moved <= limit && (call.platform == Linux ==> moved == 0);
        Do(FailRespond(moved));
        return None;
      }
      var count: nat :| 0 < count <= limit;
      Do(Respond(count));
      return Some(count);
    }

    /** WriteAll of the answer's bytes up to `end`. */
    method WriteAnswer(value: Json, end: nat) returns (ok: bool)
      requires Valid() && call.Answerable(value) && |state.response| <= end <= |call.AnswerFrame(value)|
      requires state.worker == if |state.response| == |call.AnswerFrame(value)| then Exited(0) else Responding(value)
      modifies this
      ensures Valid()
      ensures ok ==> |state.response| == end
      ensures state.worker == if ok && end < |call.AnswerFrame(value)| then Responding(value) else Exited(0)
    {
      while |state.response| < end
        invariant Valid() && |state.response| <= end
        invariant state.worker == if |state.response| == |call.AnswerFrame(value)| then Exited(0) else Responding(value)
        decreases end - |state.response|
      {
        var n := Put(value, end - |state.response|);
        if n.None? {
          return false;
        }
      }
      return true;
    }

    method SendAnswer(value: Json) returns (ok: bool)
      requires Valid() && state.worker == Responding(value) && state.response == [] && call.Answerable(value)
      modifies this
      ensures Valid() && state.worker == Exited(0)
    {
      ok := WriteAnswer(value, HEADER_SIZE);
      if ok {
        ok := WriteAnswer(value, |call.AnswerFrame(value)|);
      }
    }
  }

  // ------------------------------------------------------------------ the two programs

  /** What CallTask does: it returns, or the dump of the request throws. */
  datatype CallResult = Result(value: Json) | Exception

  /** A value other than null is an object with which the one run of the task ended; and the value
      of the task is returned if it is an object and the answer came through, else null. */
  ghost predicate ReturnsTheTasks(c: Call, trace: seq<Action>, s: State, value: Json) {
    && (value != Null ==>
          value.Object? && EndTask(Value(value)) in trace && exists task :: Runs(s.log) == [Ran(task, c.params)])
    && (forall ended | EndTask(Value(ended)) in trace ::
          value == if ended.Object? && Finish in trace then ended else Null)
  }

  method CallTask(w: World) returns (r: CallResult)
    requires w.Valid() && w.state == START
    modifies w
    ensures w.Valid() && Reachable(w.call, w.state)
    ensures r.Exception? ==> w.call.message.None? && w.state.caller == Raised && Runs(w.state.log) == []
    ensures r.Result? ==> w.state.caller.Returned? && w.state.caller.result == r.value
    ensures w.state.pipe.path ==> w.call.platform == Windows && w.state.pipe.worker.Open?
    ensures CallerEnds(w.call, w.trace, w.state)
    ensures r.Result? && w.call.Valid() && Faithful(w.call.codec) ==> ReturnsTheTasks(w.call, w.trace, w.state, r.value)
  {
    r := CallSteps(w);
    ReachableInv(w.call, w.state);
    if r.Exception? {
      RunsNeedMarks(w.call, w.state.log);
    } else if w.call.Valid() && Faithful(w.call.codec) {
      ResultIsTheTasks(w.call, w.trace, w.state);
    }
    CallerEndsBecause(w.call, w.trace, w.state);
  }

  method CallSteps(w: World) returns (r: CallResult)
    requires w.Valid() && w.state == START
    modifies w
    ensures w.Valid()
    ensures match r
      case Exception => w.call.message.None? && w.state.caller == Raised
      case Result(value) => w.state.caller.Returned? && w.state.caller.result == value
  {
    var ok := w.CreatePipe();
    if !ok {
      return Result(Null);
    }
    var arguments := [PIPE_ARGUMENT + w.call.sessionId];
    var configured: bool := *;
    if !configured {
      arguments := arguments + [INSTALL_ARGUMENT];
    }
    assert arguments == CallArguments(w.call.sessionId, configured);
    var pid := w.LaunchElevatedService(arguments);
    if pid.None? {
      return Result(Null);
    }
    ok := w.AcceptPeer();
    if !ok {
      return Result(Null);
    }
    var remote, ownPath, peerPath := w.IdentifyPeer();
    if pid.value != remote && ownPath != peerPath {
      return Result(Null);
    }
    w.DumpRequest();
    if w.call.message.None? {
      return Exception;
    }
    if !w.call.Sendable() {
      return Result(Null);
    }
    ok := w.SendRequest();
    if !ok {
      return Result(Null);
    }
    var payload := w.RecvResponse();
    if payload.None? {
      return Result(Null);
    }
    var result := w.FoldResponse(payload.value);
    return Result(result);
  }

  /** What Process does from the point where it has a session id: it ends the process with a
      status, or an exception of the task goes through it (None). */
  method Process(w: World) returns (status: Option<int>)
    requires w.Valid() && w.state.worker.Starting?
    modifies w
    ensures w.Valid() && |Runs(w.state.log)| <= 1
    ensures w.state.worker == if status.Some? then Exited(status.value) else Escaped
    // Status 0 means RunTask came back with something that has a text, sent or not.
    ensures status.Some? ==>
      status.value == if w.state.answer.Some? && w.call.codec.dump(w.state.answer.value).Some? then 0 else -1
    // And -1 comes of exactly the causes of giving up, an exception of exactly such a task.
    ensures status == Some(-1) <==> GaveUp(w.call, w.trace, w.state)
    ensures status == None <==> EndTask(OtherError) in w.trace
    ensures forall value | EndTask(Value(value)) in w.trace :: w.state.answer == Some(value)
  {
    w.Kept();
    status := ServeSteps(w);
    TracedInv(w.call, w.trace, w.state);
  }

  method ServeSteps(w: World) returns (status: Option<int>)
    requires w.Valid() && w.state.worker.Starting? && w.state.requestRead == 0 && w.state.response == []
    modifies w
    ensures w.Valid()
    ensures w.state.worker == if status.Some? then Exited(status.value) else Escaped
  {
    var elevated: bool := *;
    if !elevated {
      w.RefuseToServe();
      return Some(-1);
    }
    var ok := w.OpenPipe();
    if !ok {
      return Some(-1);
    }
    var _, ownPath, peerPath := w.IdentifyHost();
    if ownPath != peerPath {
      return Some(-1);
    }
    var payload := w.RecvRequest();
    if payload.None? {
      return Some(-1);
    }
    var request := w.ParsePayload(payload.value);
    if request.None? {
      return Some(-1);
    }
    var _ := w.LoadModule();
    var outcome := w.RunTask();
    if outcome.OtherError? {
      return None;
    }
    if outcome.JsonError? {
      return Some(-1);
    }
    w.DumpValue(outcome.value);
    if w.call.codec.dump(outcome.value).None? {
      return Some(-1);
    }
    if w.call.Answerable(outcome.value) {
      var _ := w.SendAnswer(outcome.value);
    }
    return Some(0);
  }

  lemma NoEndYet(c: Call, trace: seq<Action>, s: State)
    requires Traced(c, trace, s) && (s.worker.Dispatching? || s.worker.Running?)
    ensures forall end :: EndTask(end) !in trace
  {
    TracedInv(c, trace, s);
    NoEnd(c, trace, s);
  }

  lemma NoEnd(c: Call, trace: seq<Action>, s: State)
    requires EndTrace(c, trace, s) && s.answer.None? && !s.worker.Exited? && !s.worker.Escaped?
    ensures forall end :: EndTask(end) !in trace
  {
    forall end ensures EndTask(end) !in trace {
      if end.Value? {
        assert end == Value(end.value);
      }
    }
  }

  lemma NeedWithin(got: seq<byte>, more: seq<byte>)
    requires Incomplete(got) && got <= more && |more| < |got| + Need(got)
    ensures Incomplete(more) && Need(more) == |got| + Need(got) - |more|
  {
    assert more == got + more[|got|..];
    NeedAfter(got, more[|got|..]);
  }
}
