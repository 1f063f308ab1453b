/** One privileged call: the caller (CallTask) and the worker it launches (Process), as two
    processes that take steps in any order and meet only at the pipe. */
module Session {
  import opened Wrappers
  import opened Framing
  import opened JsonValues
  import opened Registry
  import opened Machine

  datatype Platform = Linux | Windows

  /** The module a request asks to load; none given is an empty path. */
  function PathIn(request: Json): string {
    match TextOr(request, "modulePath", "")
    case Some(path) => path
    case None => ""
  }

  /** What is fixed for one call: the caller's arguments, the library's JSON text form, the
      dump of the request (None if dumping throws), and the registrations made by the host and
      by the module at any given path when it loads. */
  datatype Call = Call(
    platform: Platform, sessionId: string,
    taskName: string, params: Json, modulePath: string,
    codec: Codec, message: Option<Payload>,
    host: seq<Registration>, modules: string -> seq<Registration>)
  {
    function Request(): Json {
      Object(map["taskName" := Text(taskName), "params" := params,
                 "modulePath" := Text(modulePath), "sessionId" := Text(sessionId)])
    }

    predicate Valid() {
      message == codec.dump(Request())
    }

    predicate Sendable() {
      message.Some? && Fits(message.value)
    }

    /** The request frame. */
    function Frame(): seq<byte>
      requires Sendable()
    {
      Framing.Frame(message.value)
    }

    predicate Answerable(j: Json) {
      codec.dump(j).Some? && Fits(codec.dump(j).value)
    }

    function AnswerFrame(j: Json): seq<byte>
      requires Answerable(j)
    {
      Framing.Frame(codec.dump(j).value)
    }

    /** What is registered in a worker with this request, whose module registers or does not. */
    function Registrations(request: Json, registers: bool): seq<Registration> {
      host + if registers then modules(PathIn(request)) else []
    }
  }

  /** Where CallTask returned from. */
  datatype Stage = NoPipe | NotLaunched | NotAccepted | PeerRefused | NotSent | NoResponse | Answered

  datatype Caller =
    | Creating
    | Launching
    | Accepting(pid: nat)
    | Checking(pid: nat)
    | Composing
    | Sending
    | Receiving
    | Returned(result: Json, stage: Stage)
    | Raised                                  // request.dump() threw
    | CallerDied

  datatype Worker =
    | Absent
    | Starting
    | Unlinking
    | CheckingHost
    | AwaitingRequest
    | Loading(request: Json)
    | Dispatching(request: Json, registers: bool)
    | Running
    | Answering(value: Json)
    | Responding(value: Json)
    | Exited(status: int)
    | Escaped                                 // an exception of the task left Process
    | WorkerDied

  datatype Event =
    | Accepted | PeerChecked | HostChecked | RequestDelivered | LoadTried(path: string)
    | Ran(task: Callback, params: Json)

  /** What a process finds out about the one at the other end of the pipe. */
  datatype Identity = Identity(remote: nat, ownPath: string, peerPath: string)

  /** What a process holds of the pipe: nothing, or a descriptor, which may be bound to the
      pipe's name. */
  datatype End = Shut | Open(bound: bool, listening: bool)

  /** `path` is the pipe's name in the system. */
  datatype Pipe = Pipe(path: bool, caller: End, worker: End, connected: bool)

  /** What the launch returned, whom the caller found connected, and whom the worker did. */
  datatype Findings = Findings(pid: Option<nat>, peer: Option<Identity>, host: Option<Identity>)

  /** `request` and `response` are all the bytes each direction ever carried, `...Read` how
      many of them the other side has read. */
  datatype State = State(
    caller: Caller, worker: Worker, pipe: Pipe,
    request: seq<byte>, requestRead: nat,
    response: seq<byte>, responseRead: nat,
    loaded: Option<bool>,                     // after the load attempt: did the module register
    answer: Option<Json>,                     // what RunTask returned
    found: Findings,
    log: seq<Event>)

  const START :=
    State(Creating, Absent, Pipe(false, Shut, Shut, false), [], 0, [], 0, None, None, Findings(None, None, None), [])

  /** How a task ends: a value, a JSON exception, or any other exception. */
  datatype Outcome = Value(value: Json) | JsonError | OtherError

  datatype Action =
    | Create(ok: bool)
    | Launch(pid: Option<nat>, started: bool)
    | Accept(ok: bool)
    | CheckPeer(remote: nat, ownPath: string, peerPath: string)
    | Compose
    | Send(n: nat)
    | FailSend(moved: nat)
    | Receive(n: nat)
    | FailReceive
    | Finish
    | KillCaller
    | Refuse
    | Connect
    | Unlink
    | CheckHost(remote: nat, ownPath: string, peerPath: string)
    | TakeRequest(n: nat)
    | FailRequest
    | ParseRequest
    | Load(registers: bool)
    | Dispatch
    | EndTask(outcome: Outcome)
    | DumpAnswer
    | Respond(n: nat)
    | FailRespond(moved: nat)
    | KillWorker

  // ------------------------------------------------------------------ the pipe's ends

  predicate Bound(end: End) {
    end.Open? && end.bound
  }

  predicate Listening(s: State) {
    s.pipe.caller.Open? && s.pipe.caller.listening
  }

  /** Whether the name outlives an end that is closed. On Linux the pipe object's destructor
      removes the name its descriptor is bound to; a process that ends without destructors
      removes none. On Windows the name lasts as long as somebody holds an end. */
  predicate NameWithout(platform: Platform, path: bool, end: End, other: End, destroyed: bool) {
    path && match platform
      case Linux => !(destroyed && Bound(end))
      case Windows => other.Open?
  }

  function CloseCaller(platform: Platform, pipe: Pipe, destroyed: bool): Pipe {
    pipe.(caller := Shut, path := NameWithout(platform, pipe.path, pipe.caller, pipe.worker, destroyed))
  }

  function CloseWorker(platform: Platform, pipe: Pipe, destroyed: bool): Pipe {
    pipe.(worker := Shut, path := NameWithout(platform, pipe.path, pipe.worker, pipe.caller, destroyed))
  }

  /** The descriptor got by accepting is bound to what the listener was bound to. */
  function FromListener(end: End): End {
    match end
    case Shut => Shut
    case Open(bound, _) => Open(bound, false)
  }

  // ------------------------------------------------------------------ the caller's steps

  /** CallTask returns or throws: the pipe object is destroyed. */
  function Leave(c: Call, s: State, caller: Caller): State {
    s.(caller := caller, pipe := CloseCaller(c.platform, s.pipe, true))
  }

  function LeaveWithNull(c: Call, s: State, stage: Stage): State {
    Leave(c, s, Returned(Null, stage))
  }

  function Logged(s: State, e: Event): State {
    s.(log := s.log + [e])
  }

  /** The request grows by the next `n` bytes of its frame. */
  function Carry(c: Call, s: State, n: nat): (t: State)
    requires c.Sendable() && |s.request| + n <= |c.Frame()|
  {
    var frame := c.Frame();
    var t := s.(request := s.request + frame[|s.request|..|s.request| + n]);
    if n > 0 && |t.request| == |frame| then Logged(t, RequestDelivered) else t
  }

  function Response(s: State): seq<byte>
    requires s.responseRead <= |s.response|
  {
    s.response[..s.responseRead]
  }

  /** An object is the result; anything else, or no JSON at all, is folded into null. */
  function Fold(codec: Codec, payload: Payload): Json {
    match codec.parse(payload)
    case Some(Object(fields)) => Object(fields)
    case _ => Null
  }

  /** From creating the pipe to having the request ready. */
  function ConnectStep(c: Call, s: State, a: Action): Option<State> {
    match (s.caller, a)
    case (Creating, Create(ok)) =>
      if ok then Some(s.(caller := Launching, pipe := s.pipe.(path := true, caller := Open(true, true))))
      else Some(LeaveWithNull(c, s, NoPipe))
    // The launch may start a worker and still not yield its pid, or yield one in vain.
    case (Launching, Launch(pid, started)) =>
      var t := (if started then s.(worker := Starting) else s).(found := s.found.(pid := pid));
      if pid.Some? then Some(t.(caller := Accepting(pid.value))) else Some(LeaveWithNull(c, t, NotLaunched))
    case (Accepting(pid), Accept(ok)) =>
      if !ok then Some(LeaveWithNull(c, s, NotAccepted))
      else if s.pipe.connected then
        Some(Logged(s.(caller := Checking(pid), pipe := s.pipe.(caller := FromListener(s.pipe.caller))), Accepted))
      else None
    case (Checking(pid), CheckPeer(remote, ownPath, peerPath)) =>
      var t := s.(found := s.found.(peer := Some(Identity(remote, ownPath, peerPath))));
      if pid != remote && ownPath != peerPath then Some(LeaveWithNull(c, t, PeerRefused))
      else Some(Logged(t.(caller := Composing), PeerChecked))
    case (Composing, Compose) =>
      if c.message.None? then Some(Leave(c, s, Raised))
      else if !c.Sendable() then Some(LeaveWithNull(c, s, NotSent))
      else Some(s.(caller := Sending))
    case _ => None
  }

  /** Sending the request and waiting for the response. */
  function ExchangeStep(c: Call, s: State, a: Action): Option<State> {
    match (s.caller, a)
    case (Sending, Send(n)) =>
      if c.Sendable() && 0 < n && |s.request| + n <= |c.Frame()| then
        var t := Carry(c, s, n);
        Some(if |t.request| == |c.Frame()| then t.(caller := Receiving) else t)
      else None
    // On Windows a cancelled write may have moved bytes, even all it was given.
    case (Sending, FailSend(moved)) =>
      if c.Sendable() && |s.request| + moved <= |c.Frame()| && (c.platform == Linux ==> moved == 0) then
        Some(LeaveWithNull(c, Carry(c, s, moved), NotSent))
      else None
    case (Receiving, Receive(n)) =>
      if s.responseRead + n <= |s.response| && Incomplete(Response(s)) && 0 < n <= Need(Response(s)) then
        Some(s.(responseRead := s.responseRead + n))
      else None
    case (Receiving, FailReceive) =>
      if s.responseRead <= |s.response| && Incomplete(Response(s)) then Some(LeaveWithNull(c, s, NoResponse)) else None
    case (Receiving, Finish) =>
      if s.responseRead <= |s.response| && Complete(Response(s)) then
        Some(Leave(c, s, Returned(Fold(c.codec, Response(s)[HEADER_SIZE..]), Answered)))
      else None
    case _ => None
  }

  predicate Ended(caller: Caller) {
    caller.Returned? || caller.Raised?
  }

  predicate CallerOver(s: State) {
    Ended(s.caller) || s.caller.CallerDied?
  }

  function CallerStep(c: Call, s: State, a: Action): Option<State> {
    if a.KillCaller? then
      // The process dies without destructors.
      if CallerOver(s) then None
      else Some(s.(caller := CallerDied, pipe := CloseCaller(c.platform, s.pipe, false)))
    else if s.caller.Sending? || s.caller.Receiving? then ExchangeStep(c, s, a)
    else ConnectStep(c, s, a)
  }

  // ------------------------------------------------------------------ the worker's steps

  function Taken(s: State): seq<byte>
    requires s.requestRead <= |s.request|
  {
    s.request[..s.requestRead]
  }

  /** The worker's process ends, in all cases but the last by `_exit`, without destructors. */
  function Quit(c: Call, s: State, worker: Worker): State {
    s.(worker := worker, pipe := CloseWorker(c.platform, s.pipe, worker.Escaped?))
  }

  /** From starting up to having read and parsed the request. */
  function AttachStep(c: Call, s: State, a: Action): Option<State> {
    match (s.worker, a)
    case (Starting, Refuse) => Some(Quit(c, s, Exited(-1)))
    case (Starting, Connect) =>
      if s.pipe.path && Listening(s) then
        Some(s.(worker := Unlinking, pipe := s.pipe.(worker := Open(false, false), connected := true)))
      else None
    case (Unlinking, Unlink) =>
      Some(s.(worker := CheckingHost, pipe := s.pipe.(path := s.pipe.path && c.platform == Windows)))
    case (CheckingHost, CheckHost(remote, ownPath, peerPath)) =>
      var t := s.(found := s.found.(host := Some(Identity(remote, ownPath, peerPath))));
      if ownPath != peerPath then Some(Quit(c, t, Exited(-1)))
      else Some(Logged(t.(worker := AwaitingRequest), HostChecked))
    case (AwaitingRequest, TakeRequest(n)) =>
      if s.requestRead + n <= |s.request| && Incomplete(Taken(s)) && 0 < n <= Need(Taken(s)) then
        Some(s.(requestRead := s.requestRead + n))
      else None
    case (AwaitingRequest, FailRequest) =>
      if s.requestRead <= |s.request| && Incomplete(Taken(s)) then Some(Quit(c, s, Exited(-1))) else None
    case (AwaitingRequest, ParseRequest) =>
      if s.requestRead <= |s.request| && Complete(Taken(s)) then
        var parsed := c.codec.parse(Taken(s)[HEADER_SIZE..]);
        if parsed.Some? && TextOr(parsed.value, "modulePath", "").Some? then
          Some(s.(worker := Loading(parsed.value)))
        else Some(Quit(c, s, Exited(-1)))
      else None
    case _ => None
  }

  /** From the parsed request to the end of the task. */
  function TaskStep(c: Call, s: State, a: Action): Option<State> {
    match (s.worker, a)
    // Whether or not the module loads, the request goes on.
    case (Loading(request), Load(registers)) =>
      Some(Logged(s.(worker := Dispatching(request, registers), loaded := Some(registers)), LoadTried(PathIn(request))))
    case (Dispatching(request, registers), Dispatch) =>
      var name, params := TextAt(request, "taskName"), MemberAt(request, "params");
      if name.None? || params.None? then Some(Quit(c, s, Exited(-1)))
      else
        var task := Lookup(c.Registrations(request, registers), name.value);
        if task.None? then Some(s.(worker := Answering(Bool(false)), answer := Some(Bool(false))))
        else Some(Logged(s.(worker := Running), Ran(task.value, params.value)))
    case (Running, EndTask(Value(value))) => Some(s.(worker := Answering(value), answer := Some(value)))
    case (Running, EndTask(JsonError)) => Some(Quit(c, s, Exited(-1)))
    case (Running, EndTask(OtherError)) => Some(Quit(c, s, Escaped))
    case _ => None
  }

  /** Sending the answer. */
  function AnswerStep(c: Call, s: State, a: Action): Option<State> {
    match (s.worker, a)
    case (Answering(value), DumpAnswer) =>
      if c.codec.dump(value).None? then Some(Quit(c, s, Exited(-1)))
      else if !c.Answerable(value) then Some(Quit(c, s, Exited(0)))
      else Some(s.(worker := Responding(value)))
    case (Responding(value), Respond(n)) =>
      if c.Answerable(value) && 0 < n && |s.response| + n <= |c.AnswerFrame(value)| then
        var t := s.(response := s.response + c.AnswerFrame(value)[|s.response|..|s.response| + n]);
        Some(if |t.response| == |c.AnswerFrame(value)| then Quit(c, t, Exited(0)) else t)
      else None
    // The result of the worker's SendMessage is not looked at.
    case (Responding(value), FailRespond(moved)) =>
      if c.Answerable(value) && |s.response| + moved <= |c.AnswerFrame(value)| && (c.platform == Linux ==> moved == 0) then
        Some(Quit(c, s.(response := s.response + c.AnswerFrame(value)[|s.response|..|s.response| + moved]), Exited(0)))
      else None
    case _ => None
  }

  predicate Responsive(worker: Worker) {
    worker.Answering? || worker.Responding?
  }

  /** From the parsed request to the exit. */
  function ServeStep(c: Call, s: State, a: Action): Option<State> {
    if Responsive(s.worker) then AnswerStep(c, s, a) else TaskStep(c, s, a)
  }

  predicate Attaching(worker: Worker) {
    worker.Starting? || worker.Unlinking? || worker.CheckingHost? || worker.AwaitingRequest?
  }

  predicate Gone(worker: Worker) {
    worker.Absent? || worker.Exited? || worker.Escaped? || worker.WorkerDied?
  }

  function WorkerStep(c: Call, s: State, a: Action): Option<State> {
    if a.KillWorker? then if Gone(s.worker) then None else Some(Quit(c, s, WorkerDied))
    else if Attaching(s.worker) then AttachStep(c, s, a)
    else ServeStep(c, s, a)
  }

  predicate CallerActs(a: Action) {
    a.Create? || a.Launch? || a.Accept? || a.CheckPeer? || a.Compose? || a.Send? || a.FailSend?
    || a.Receive? || a.FailReceive? || a.Finish? || a.KillCaller?
  }

  function Step(c: Call, s: State, a: Action): Option<State> {
    if CallerActs(a) then CallerStep(c, s, a) else WorkerStep(c, s, a)
  }

  function Stepper(c: Call): (State, Action) -> Option<State> {
    (s, a) => Step(c, s, a)
  }

  /** Some list of actions, each possible in its turn, leads from one state to the other. */
  ghost predicate Leads(c: Call, s: State, t: State) {
    exists actions: seq<Action> :: Run(Stepper(c), s, actions) == Some(t)
  }

  ghost predicate Reachable(c: Call, s: State) {
    Leads(c, START, s)
  }
}
