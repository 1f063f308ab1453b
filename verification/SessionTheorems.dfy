/** What a session promises, over every run of caller and worker. */
module SessionTheorems {
  import opened Wrappers
  import opened Framing
  import opened JsonValues
  import opened Registry
  import opened Machine
  import opened Session
  import opened SessionInvariant
  import opened SessionTrace

  // ------------------------------------------------------------------ runs of runs

  lemma LeadsSelf(c: Call, s: State)
    ensures Leads(c, s, s)
  {
    assert Run(Stepper(c), s, []) == Some(s);
  }

  lemma LeadsStep(c: Call, s: State, a: Action, t: State, u: State)
    requires Leads(c, s, t) && Step(c, t, a) == Some(u)
    ensures Leads(c, s, u)
  {
    var actions: seq<Action> :| Run(Stepper(c), s, actions) == Some(t);
    RunOn(Stepper(c), s, actions, [a]);
    RunOne(Stepper(c), t, a);
  }

  lemma LeadsOn(c: Call, s: State, t: State, u: State)
    requires Leads(c, s, t) && Leads(c, t, u)
    ensures Leads(c, s, u)
  {
    var first: seq<Action> :| Run(Stepper(c), s, first) == Some(t);
    var more: seq<Action> :| Run(Stepper(c), t, more) == Some(u);
    RunOn(Stepper(c), s, first, more);
  }

  // ------------------------------------------------------------------ at most once, in order

  lemma {:induction false} RunsExist(log: seq<Event>)
    ensures Runs(log) != [] ==> exists i :: 0 <= i < |log| && log[i].Ran?
  {
    if log != [] {
      var front := log[..|log| - 1];
      RunsExist(front);
      if Runs(front) != [] {
        var i :| 0 <= i < |front| && front[i].Ran?;
        assert log[i].Ran?;
      }
    }
  }

  /** The session's task starts at most once, and not before the caller has accepted and
      checked its peer, the worker has checked the host, every byte of the request has been
      handed over and the module load has been tried. Each of these marks stands for what was
      really done and found: the worker that is accepted has connected; the peer is the
      process launched or runs the caller's executable; the host runs the worker's. */
  lemma AtMostOnceAfterChecks(c: Call, actions: seq<Action>, s: State)
    requires Traced(c, actions, s)
    ensures |Runs(s.log)| <= 1
    ensures forall i | 0 <= i < |s.log| && s.log[i].Ran? ::
      && Accepted in s.log[..i] && PeerChecked in s.log[..i] && HostChecked in s.log[..i]
      && RequestDelivered in s.log[..i] && exists path :: LoadTried(path) in s.log[..i]
    ensures Accepted in s.log <==> Accept(true) in actions
    ensures Accepted in s.log ==> Connect in actions
    ensures PeerChecked in s.log <==> PeerFits(actions)
    ensures HostChecked in s.log <==> exists remote, path :: CheckHost(remote, path, path) in actions
    ensures RequestDelivered in s.log <==> c.Sendable() && s.request == c.Frame()
    ensures forall path | LoadTried(path) in s.log :: Load(true) in actions || Load(false) in actions
  {
    TracedInv(c, actions, s);
    forall i | 0 <= i < |s.log| && s.log[i].Ran? ensures Cleared(c, s.log[..i]) {}
    if HostChecked in s.log {
      var h := s.found.host.value;
      assert CheckHost(h.remote, h.ownPath, h.ownPath) in actions;
    }
    if PeerChecked in s.log {
      var p := s.found.peer.value;
      assert CheckPeer(p.remote, p.ownPath, p.peerPath) in actions;
    }
  }

  ghost predicate PeerFits(actions: seq<Action>) {
    exists remote, own, peer ::
      && CheckPeer(remote, own, peer) in actions
      && (own == peer || Launch(Some(remote), true) in actions || Launch(Some(remote), false) in actions)
  }

  /** A worker that finds another executable at the other end exits with -1, reads nothing and
      runs nothing. */
  lemma StrangeHostRefused(c: Call, actions: seq<Action>, s: State, remote: nat, own: string, peer: string)
    requires Traced(c, actions, s) && CheckHost(remote, own, peer) in actions && own != peer
    ensures s.worker == Exited(-1) && s.requestRead == 0 && Runs(s.log) == []
  {
    TracedInv(c, actions, s);
    RunsNeedMarks(c, s.log);
  }

  /** A caller whose peer is neither the process launched nor of its own executable returns null,
      has sent nothing, and no task runs. */
  lemma StrangePeerRefused(c: Call, actions: seq<Action>, s: State, remote: nat, own: string, peer: string)
    requires Traced(c, actions, s) && CheckPeer(remote, own, peer) in actions && !PeerFits(actions)
    ensures s.caller == Returned(Null, PeerRefused) && s.request == [] && Runs(s.log) == []
  {
    TracedInv(c, actions, s);
    RunsNeedMarks(c, s.log);
  }

  ghost predicate LastRegistered(history: seq<Registration>, name: string, task: Callback) {
    exists i: nat :: IsLast(history, name, i) && history[i].task == Some(task)
  }

  /** What is registered for this call once its module has been loaded, or has not. */
  function RegisteredFor(c: Call, registers: bool): seq<Registration> {
    c.host + if registers then c.modules(c.modulePath) else []
  }

  /** What the worker reads is the request with these four members and no others. */
  lemma RequestCarries(c: Call, s: State)
    requires Reachable(c, s) && c.Valid() && Faithful(c.codec)
    requires s.requestRead <= |s.request| && Complete(Taken(s))
    ensures c.codec.parse(Taken(s)[HEADER_SIZE..]) == Some(Object(map[
      "taskName" := Text(c.taskName), "params" := c.params,
      "modulePath" := Text(c.modulePath), "sessionId" := Text(c.sessionId)]))
  {
    ReachableInv(c, s);
    TakenFrame(c, s);
    assert c.codec.parse(c.message.value) == Some(c.Request());
  }

  lemma Registered(c: Call)
    requires c.Valid() && Faithful(c.codec) && c.Sendable()
    ensures Seen(c) == Some(c.Request()) && ModuleOf(c) == c.modulePath
    ensures forall registers :: c.Registrations(c.Request(), registers) == RegisteredFor(c, registers)
  {
    assert c.codec.parse(c.message.value) == Some(c.Request());
  }

  /** The task that runs is the last valid registration of the requested name, those of the
      caller's module coming after the host's if the load registered them; it gets the caller's
      parameters unchanged; and it is the caller's module whose load was tried before. */
  lemma RightTaskRuns(c: Call, actions: seq<Action>, s: State)
    requires Traced(c, actions, s) && c.Valid() && Faithful(c.codec) && Runs(s.log) != []
    ensures exists registers, task ::
      && Load(registers) in actions && Runs(s.log) == [Ran(task, c.params)]
      && LastRegistered(RegisteredFor(c, registers), c.taskName, task)
    ensures forall i | 0 <= i < |s.log| && s.log[i].Ran? :: LoadTried(c.modulePath) in s.log[..i]
    ensures forall path | LoadTried(path) in s.log :: path == c.modulePath
  {
    TracedInv(c, actions, s);
    Registered(c);
    var registers, ran := s.loaded.value, Runs(s.log)[0];
    var registered := RegisteredFor(c, registers);
    LookupIsLast(registered, c.taskName);
    var i: nat :| IsLast(registered, c.taskName, i);
    assert registered[i].task == Some(ran.task);
    assert Runs(s.log) == [Ran(ran.task, c.params)] && LastRegistered(registered, c.taskName, ran.task);
    forall i | 0 <= i < |s.log| && s.log[i].Ran? ensures Cleared(c, s.log[..i]) {}
  }

  // ------------------------------------------------------------------ what a null means

  /** Once the caller is gone it sends nothing more, and the name does not come back. */
  ghost predicate Since(s: State, t: State) {
    t.caller == s.caller && t.request == s.request && (t.pipe.path ==> s.pipe.path)
  }

  lemma StepSince(c: Call, s: State, t: State, a: Action)
    requires CallerOver(s) && Since(s, t) && Step(c, t, a).Some?
    ensures Since(s, Step(c, t, a).value)
  {
    if !CallerActs(a) {
      WorkerFrames(c, t, a);
    }
  }

  lemma LeadsSince(c: Call, s: State, t: State)
    requires CallerOver(s) && Leads(c, s, t)
    ensures Since(s, t)
  {
    var actions: seq<Action> :| Run(Stepper(c), s, actions) == Some(t);
    forall x: State, a: Action | Since(s, x) && Stepper(c)(x, a).Some? ensures Since(s, Stepper(c)(x, a).value) {
      StepSince(c, s, x, a);
    }
    RunKeeps(Stepper(c), x => Since(s, x), s, actions);
  }

  /** If the caller is over and had not handed over its whole request, the task never runs,
      however the run goes on. */
  lemma UndeliveredNeverRuns(c: Call, s: State, t: State)
    requires Reachable(c, s) && CallerOver(s) && RequestDelivered !in s.log && Leads(c, s, t)
    ensures Runs(t.log) == []
  {
    ReachableInv(c, s);
    LeadsSince(c, s, t);
    LeadsOn(c, START, s, t);
    ReachableInv(c, t);
    RunsNeedMarks(c, t.log);
  }

  lemma RunsNeedMarks(c: Call, log: seq<Event>)
    requires InOrder(c, log)
    ensures Runs(log) != [] ==> RequestDelivered in log && HostChecked in log && PeerChecked in log
  {
    RunsExist(log);
    if i :| 0 <= i < |log| && log[i].Ran? {
      assert Cleared(c, log[..i]);
    }
  }

  /** Which nulls those are: every one from before the request was sent, and on Linux also the
      one from a failed send. */
  lemma EarlyNullNeverRuns(c: Call, s: State, t: State)
    requires Reachable(c, s) && s.caller.Returned? && Leads(c, s, t)
    requires !AfterSending(s.caller) && (s.caller.stage.NotSent? ==> c.platform == Linux)
    ensures s.caller.result == Null && Runs(t.log) == []
  {
    ReachableInv(c, s);
    assert RequestDelivered !in s.log;
    UndeliveredNeverRuns(c, s, t);
  }

  /** The request names a task that is registered, by the host or by the module if that
      registers too, and has parameters. */
  predicate Findable(c: Call, request: Json, registers: bool) {
    && TextAt(request, "taskName").Some? && MemberAt(request, "params").Some?
    && Lookup(c.Registrations(request, registers), TextAt(request, "taskName").value).Some?
  }

  /** The request can be sent, is understood, and its task is registered by host or module. */
  predicate Runnable(c: Call) {
    c.Sendable() && Seen(c).Some? && Findable(c, Seen(c).value, true)
  }

  /** Where the worker must be for a delivered request still to be run. */
  predicate MayRun(c: Call, s: State) {
    match s.worker
    case Unlinking => Runnable(c)
    case CheckingHost => Runnable(c)
    case AwaitingRequest => Runnable(c)
    case Loading(request) => Findable(c, request, true)
    case Dispatching(request, registers) => Findable(c, request, registers)
    case _ => false
  }

  /** For a request that survives its text form: the task is one that host or module registers. */
  lemma RunnableMeans(c: Call)
    requires c.Valid() && Faithful(c.codec)
    ensures Runnable(c) <==> c.Sendable() && exists task :: LastRegistered(RegisteredFor(c, true), c.taskName, task)
  {
    var registered := RegisteredFor(c, true);
    LookupIsLast(registered, c.taskName);
    if c.Sendable() {
      Registered(c);
      if Runnable(c) {
        var i: nat :| IsLast(registered, c.taskName, i);
        assert LastRegistered(registered, c.taskName, registered[i].task.value);
      }
    }
  }

  /** Registering more hides no task. */
  lemma FindableWithMore(c: Call, request: Json)
    ensures Findable(c, request, false) ==> Findable(c, request, true)
  {
    if Findable(c, request, false) {
      var name := TextAt(request, "taskName").value;
      LookupIsLast(c.Registrations(request, false), name);
      LookupIsLast(c.Registrations(request, true), name);
      var i: nat :| IsLast(c.Registrations(request, false), name, i);
      assert c.Registrations(request, true)[i] == c.host[i];
      var last := LastOf(c.Registrations(request, true), name, i);
    }
  }

  lemma LastOf(history: seq<Registration>, name: string, i: nat) returns (last: nat)
    requires i < |history| && Registers(history[i], name)
    ensures IsLast(history, name, last)
    decreases |history| - i
  {
    if j :| i < j < |history| && Registers(history[j], name) {
      last := LastOf(history, name, j);
    } else {
      last := i;
    }
  }

  // ------------------------------------------------------------------ what leads to a run

  ghost predicate CanRun(c: Call, s: State) {
    exists t :: Leads(c, s, t) && Runs(t.log) != []
  }

  lemma CanRunBefore(c: Call, s: State, t: State)
    requires Leads(c, s, t) && CanRun(c, t)
    ensures CanRun(c, s)
  {
    var u :| Leads(c, t, u) && Runs(u.log) != [];
    LeadsOn(c, s, t, u);
  }

  lemma CanRunAfter(c: Call, s: State, a: Action)
    requires Step(c, s, a).Some? && CanRun(c, Step(c, s, a).value)
    ensures CanRun(c, s)
  {
    LeadsSelf(c, s);
    LeadsStep(c, s, a, s, Step(c, s, a).value);
    CanRunBefore(c, s, Step(c, s, a).value);
  }

  lemma DispatchingCanRun(c: Call, s: State)
    requires s.worker.Dispatching? && Findable(c, s.worker.request, s.worker.registers)
    ensures CanRun(c, s)
  {
    var t := Step(c, s, Dispatch).value;
    RunsSnoc(s.log, t.log[|s.log|]);
    LeadsSelf(c, t);
    CanRunAfter(c, s, Dispatch);
  }

  lemma LoadingCanRun(c: Call, s: State)
    requires s.worker.Loading? && Findable(c, s.worker.request, true)
    ensures CanRun(c, s)
  {
    DispatchingCanRun(c, Step(c, s, Load(true)).value);
    CanRunAfter(c, s, Load(true));
  }

  lemma ReadAllOfIt(c: Call, s: State)
    requires RequestInv(c, s) && Delivered(c, s) && s.worker.AwaitingRequest?
    ensures Leads(c, s, s.(requestRead := |s.request|))
    decreases |s.request| - s.requestRead
  {
    var got := Taken(s);
    LeadsSelf(c, s);
    if s.requestRead < |s.request| {
      StrictPrefixIncomplete(got, c.message.value);
      var n := Need(got);
      var t := s.(requestRead := s.requestRead + n);
      assert Step(c, s, TakeRequest(n)) == Some(t);
      LeadsStep(c, s, TakeRequest(n), s, t);
      ReadAllOfIt(c, t);
      LeadsOn(c, s, t, s.(requestRead := |s.request|));
    } else {
      assert s.(requestRead := |s.request|) == s;
    }
  }

  lemma AwaitingCanRun(c: Call, s: State)
    requires RequestInv(c, s) && Delivered(c, s) && s.worker.AwaitingRequest? && Runnable(c)
    ensures CanRun(c, s)
  {
    var t := s.(requestRead := |s.request|);
    ReadAllOfIt(c, s);
    assert Taken(t) == c.Frame();
    CompleteIsFrame(c.Frame());
    assert c.Frame()[HEADER_SIZE..] == c.message.value;
    LoadingCanRun(c, Step(c, t, ParseRequest).value);
    CanRunAfter(c, t, ParseRequest);
    CanRunBefore(c, s, t);
  }

  lemma CheckingCanRun(c: Call, s: State)
    requires RequestInv(c, s) && Delivered(c, s) && s.worker.CheckingHost? && Runnable(c)
    ensures CanRun(c, s)
  {
    AwaitingCanRun(c, Step(c, s, CheckHost(0, "", "")).value);
    CanRunAfter(c, s, CheckHost(0, "", ""));
  }

  lemma UnlinkingCanRun(c: Call, s: State)
    requires RequestInv(c, s) && Delivered(c, s) && s.worker.Unlinking? && Runnable(c)
    ensures CanRun(c, s)
  {
    CheckingCanRun(c, Step(c, s, Unlink).value);
    CanRunAfter(c, s, Unlink);
  }

  /** A delivered request leaves the task open to run, whatever has become of the caller. */
  lemma DeliveredCanRun(c: Call, s: State)
    requires Reachable(c, s) && RequestDelivered in s.log && MayRun(c, s)
    ensures exists t :: Leads(c, s, t) && Runs(t.log) != []
  {
    ReachableInv(c, s);
    match s.worker
    case Unlinking => UnlinkingCanRun(c, s);
    case CheckingHost => CheckingCanRun(c, s);
    case AwaitingRequest => AwaitingCanRun(c, s);
    case Loading(_) => LoadingCanRun(c, s);
    case Dispatching(_, _) => DispatchingCanRun(c, s);
    assert CanRun(c, s);
  }

  // ------------------------------------------------------------------ and what does not

  /** No task has run, and the worker is where none can any more. */
  ghost predicate NoRun(c: Call, s: State) {
    Inv(c, s) && CallerOver(s) && Runs(s.log) == [] && !MayRun(c, s)
  }

  lemma AttachNoRun(c: Call, s: State, a: Action)
    requires RequestInv(c, s) && NameInv(c, s) && CallerOver(s) && !MayRun(c, s)
    requires Attaching(s.worker) && AttachStep(c, s, a).Some?
    ensures !MayRun(c, AttachStep(c, s, a).value)
  {
    if s.worker.AwaitingRequest? && a.ParseRequest? {
      TakenFrame(c, s);
    }
  }

  lemma TaskNoRun(c: Call, s: State, a: Action)
    requires !MayRun(c, s) && TaskStep(c, s, a).Some?
    ensures !MayRun(c, TaskStep(c, s, a).value) && NewRuns(s.log, TaskStep(c, s, a).value.log) == []
  {
    if s.worker.Loading? {
      FindableWithMore(c, s.worker.request);
    }
  }

  lemma WorkerNoRun(c: Call, s: State, a: Action)
    requires RequestInv(c, s) && NameInv(c, s) && CallerOver(s) && !MayRun(c, s)
    requires WorkerStep(c, s, a).Some?
    ensures var t := WorkerStep(c, s, a).value; !MayRun(c, t) && NewRuns(s.log, t.log) == []
  {
    if a.KillWorker? {
    } else if Attaching(s.worker) {
      AttachNoRun(c, s, a);
      AttachFrames(c, s, a);
    } else if Responsive(s.worker) {
      AnswerFrames(c, s, a);
    } else {
      TaskNoRun(c, s, a);
    }
  }

  lemma StepNoRun(c: Call, s: State, a: Action)
    requires NoRun(c, s) && Step(c, s, a).Some?
    ensures NoRun(c, Step(c, s, a).value)
  {
    assert !CallerActs(a);
    var t := WorkerStep(c, s, a).value;
    StepKeeps(c, s, a);
    WorkerFrames(c, s, a);
    WorkerNoRun(c, s, a);
    RunsGrow(s.log, t.log);
  }

  lemma NoRunEver(c: Call, s: State, t: State)
    requires NoRun(c, s) && Leads(c, s, t)
    ensures Runs(t.log) == []
  {
    var actions: seq<Action> :| Run(Stepper(c), s, actions) == Some(t);
    forall x: State, a: Action | NoRun(c, x) && Stepper(c)(x, a).Some? ensures NoRun(c, Stepper(c)(x, a).value) {
      StepNoRun(c, x, a);
    }
    RunKeeps(Stepper(c), x => NoRun(c, x), s, actions);
  }

  /** For a caller that is over, wherever its worker is, the cases are exact: the task has run,
      or it can still run because the request was delivered to a worker that may run it. */
  lemma RunsOnlyIfDelivered(c: Call, s: State)
    requires Reachable(c, s) && CallerOver(s)
    ensures (exists t :: Leads(c, s, t) && Runs(t.log) != []) <==>
      Runs(s.log) != [] || (RequestDelivered in s.log && MayRun(c, s))
  {
    ReachableInv(c, s);
    LeadsSelf(c, s);
    if RequestDelivered in s.log && MayRun(c, s) {
      DeliveredCanRun(c, s);
    } else if Runs(s.log) == [] {
      forall t | Leads(c, s, t) ensures Runs(t.log) == [] {
        if RequestDelivered in s.log {
          NoRunEver(c, s, t);
        } else {
          UndeliveredNeverRuns(c, s, t);
        }
      }
    }
  }

  // ------------------------------------------------------------------ the Windows exception

  lemma RunsNeedRunnable(c: Call, s: State)
    requires Reachable(c, s) && Runs(s.log) != []
    ensures Runnable(c)
  {
    ReachableInv(c, s);
    FindableWithMore(c, Seen(c).value);
    assert Findable(c, Seen(c).value, s.loaded.value);
  }

  ghost predicate NullThenRun(c: Call, s: State, t: State) {
    Reachable(c, s) && s.caller == Returned(Null, NotSent) && Leads(c, s, t) && Runs(t.log) != []
  }

  /** On Windows a null from a failed send may still be followed by the task, exactly for the
      requests that can be run at all: the last write is cancelled only after it has moved the
      rest of the frame. */
  lemma WindowsFailedSendMayRun(c: Call)
    requires c.platform == Windows
    ensures (exists s, t :: NullThenRun(c, s, t)) <==> Runnable(c)
  {
    if s, t :| NullThenRun(c, s, t) {
      LeadsOn(c, START, s, t);
      RunsNeedRunnable(c, t);
    }
    if Runnable(c) {
      var s := FailedButDelivered(c);
      DeliveredCanRun(c, s);
      var t :| Leads(c, s, t) && Runs(t.log) != [];
      assert NullThenRun(c, s, t);
    }
  }

  lemma FailedButDelivered(c: Call) returns (s: State)
    requires c.platform == Windows && c.Sendable()
    ensures Reachable(c, s) && s.caller == Returned(Null, NotSent) && RequestDelivered in s.log
    ensures s.worker.AwaitingRequest?
  {
    s := Connected(c);
    if c.message.value == [] {
      s := Then(c, s, FailSend(HEADER_SIZE));
    } else {
      s := Then(c, s, Send(HEADER_SIZE));
      s := Then(c, s, FailSend(|c.message.value|));
    }
    ReachableInv(c, s);
  }

  /** Both ends connected and checked, the first byte about to be sent. */
  lemma Connected(c: Call) returns (s: State)
    requires c.Sendable()
    ensures Reachable(c, s) && s.caller.Sending? && s.worker.AwaitingRequest? && s.request == []
  {
    s := WorkerWaiting(c);
    s := Then(c, s, Accept(true));
    s := Then(c, s, CheckPeer(1, "", ""));
    s := Then(c, s, Compose);
  }

  lemma WorkerWaiting(c: Call) returns (s: State)
    ensures Reachable(c, s) && s.caller == Accepting(1) && s.worker.AwaitingRequest?
    ensures s.pipe.connected && s.pipe.worker.Open? && s.request == []
  {
    s := Launched(c);
    s := Then(c, s, Connect);
    s := Then(c, s, Unlink);
    s := Then(c, s, CheckHost(0, "", ""));
  }

  lemma Launched(c: Call) returns (s: State)
    ensures Reachable(c, s) && s.caller == Accepting(1) && s.worker.Starting?
    ensures s.pipe.path && Listening(s) && s.request == []
  {
    LeadsSelf(c, START);
    s := Then(c, START, Create(true));
    s := Then(c, s, Launch(Some(1), true));
  }

  lemma Then(c: Call, s: State, a: Action) returns (t: State)
    requires Reachable(c, s) && Step(c, s, a).Some?
    ensures Reachable(c, t) && Step(c, s, a) == Some(t)
  {
    t := Step(c, s, a).value;
    LeadsStep(c, START, a, s, t);
  }

  // ------------------------------------------------------------------ the result

  ghost predicate NoneRegistered(c: Call, registers: bool) {
    forall task :: !LastRegistered(RegisteredFor(c, registers), c.taskName, task)
  }

  /** How the task ended decides what the worker makes of it: a value is the answer, a JSON
      exception the exit status -1, any other exception leaves Process; without a value nothing
      is answered. */
  lemma OutcomeDecides(c: Call, actions: seq<Action>, s: State)
    requires Traced(c, actions, s)
    ensures forall value | EndTask(Value(value)) in actions :: s.answer == Some(value)
    ensures EndTask(JsonError) in actions ==> s.worker == Exited(-1) && s.response == []
    ensures EndTask(OtherError) in actions <==> s.worker == Escaped
    ensures EndTask(OtherError) in actions ==> s.response == []
    ensures forall one, other | EndTask(one) in actions && EndTask(other) in actions :: one == other
  {
    TracedInv(c, actions, s);
  }

  /** Whatever CallTask returns is an object or null. An object is the value with which the one
      run of the task ended; and an answered call returns that value if it is an object, and
      null otherwise, as it does when nothing valid was registered. */
  lemma ResultIsTheTasks(c: Call, actions: seq<Action>, s: State)
    requires Traced(c, actions, s) && s.caller.Returned? && c.Valid() && Faithful(c.codec)
    ensures s.caller.result == Null || s.caller.result.Object?
    ensures s.caller.result.Object? ==>
      EndTask(Value(s.caller.result)) in actions && exists task :: Runs(s.log) == [Ran(task, c.params)]
    ensures Finish in actions ==> forall value | EndTask(Value(value)) in actions ::
      s.caller.result == if value.Object? then value else Null
    ensures Finish in actions ==>
      || (exists value :: EndTask(Value(value)) in actions)
      || exists registers :: Load(registers) in actions && NoneRegistered(c, registers) && s.caller.result == Null
    ensures Finish !in actions ==> s.caller.result == Null
  {
    TracedInv(c, actions, s);
    if Finish in actions {
      AnswerReturned(c, s);
      AnswerOrigin(c, actions, s);
    }
    if Runs(s.log) != [] {
      RightTaskRuns(c, actions, s);
    }
  }

  lemma AnswerReturned(c: Call, s: State)
    requires AnswerInv(c, s) && s.caller.Returned? && s.caller.stage.Answered? && Faithful(c.codec)
    ensures s.answer.Some? && s.caller.result == if s.answer.value.Object? then s.answer.value else Null
  {
    assert c.codec.parse(c.codec.dump(s.answer.value).value) == s.answer;
  }

  /** An answer is the value of a task that ran, or `false` where none is registered. */
  lemma AnswerOrigin(c: Call, actions: seq<Action>, s: State)
    requires Traced(c, actions, s) && s.answer.Some? && c.Valid() && Faithful(c.codec)
    ensures (EndTask(Value(s.answer.value)) in actions && Runs(s.log) != []) || (s.answer == Some(Bool(false))
      && exists registers :: Load(registers) in actions && NoneRegistered(c, registers))
  {
    TracedInv(c, actions, s);
    if EndTask(Value(s.answer.value)) !in actions {
      Registered(c);
      LookupIsLast(RegisteredFor(c, s.loaded.value), c.taskName);
      assert Load(s.loaded.value) in actions && NoneRegistered(c, s.loaded.value);
      assert Runs(s.log) == [];
    }
  }

  // ------------------------------------------------------------------ why it ended so

  /** Every way for CallTask to end has its own cause, and no other; with the stages told apart,
      this says of each null where it comes from. */
  lemma CallerEndsBecause(c: Call, actions: seq<Action>, s: State)
    requires Traced(c, actions, s)
    ensures CallerEnds(c, actions, s)
    ensures s.caller == Returned(Null, PeerRefused) <==>
      (exists remote, own, peer :: CheckPeer(remote, own, peer) in actions) && !PeerFits(actions)
  {
    TracedInv(c, actions, s);
    if s.found.peer.Some? {
      var p := s.found.peer.value;
      assert CheckPeer(p.remote, p.ownPath, p.peerPath) in actions;
    }
  }

  /** And every way for the worker: -1 for being refused or refusing, for a request that does not
      come, is not understood or names no task, for a task that ends in a JSON exception and for
      an answer without a text; 0 once an answer with a text is done with, sent or not. */
  lemma WorkerEndsBecause(c: Call, actions: seq<Action>, s: State)
    requires Traced(c, actions, s)
    ensures s.worker.Exited? ==> s.worker.status == 0 || s.worker.status == -1
    ensures s.worker == Exited(-1) <==>
      || Refuse in actions || FailRequest in actions
      || (exists remote, own, peer :: CheckHost(remote, own, peer) in actions && own != peer)
      || (ParseRequest in actions && !Understood(c)) || (Dispatch in actions && !NamesTask(c))
      || EndTask(JsonError) in actions
      || (DumpAnswer in actions && s.answer.Some? && c.codec.dump(s.answer.value).None?)
    ensures s.worker == Exited(0) <==> DoneWith(c, actions, s)
    ensures s.worker == Escaped <==> EndTask(OtherError) in actions
    ensures s.worker == WorkerDied <==> KillWorker in actions
  {
    TracedInv(c, actions, s);
    if s.found.host.Some? {
      var h := s.found.host.value;
      assert CheckHost(h.remote, h.ownPath, h.peerPath) in actions;
    }
  }

  // ------------------------------------------------------------------ the name

  /** On Linux the name is gone once CallTask has returned or thrown, by whatever route, and
      nothing in the rest of the run brings it back; before that it hangs on an open end of the
      caller's that is bound to it and will take it away, unless the caller was killed. */
  lemma NameGone(c: Call, s: State, t: State)
    requires c.platform == Linux && Reachable(c, s) && Leads(c, s, t)
    ensures s.pipe.path ==> s.caller.CallerDied? || Bound(s.pipe.caller)
    ensures Ended(s.caller) ==> s.pipe.caller.Shut? && !s.pipe.path && !t.pipe.path
  {
    ReachableInv(c, s);
    if Ended(s.caller) {
      LeadsSince(c, s, t);
    }
  }

  /** There the worker takes the name away as soon as it is connected. */
  lemma UnlinkedOnceConnected(c: Call, actions: seq<Action>, s: State)
    requires c.platform == Linux && Traced(c, actions, s) && Unlink in actions
    ensures !s.pipe.path
  {
    TracedInv(c, actions, s);
  }

  /** On Windows the name exists exactly while an end is open. It is gone, for good, once the
      caller is over and its worker has no end open: never connected, or over as well. */
  lemma WindowsNameGone(c: Call, s: State, t: State)
    requires c.platform == Windows && Reachable(c, s) && Leads(c, s, t)
    ensures s.pipe.path <==> s.pipe.caller.Open? || s.pipe.worker.Open?
    ensures CallerOver(s) && (Early(s.worker) || Gone(s.worker)) ==> !s.pipe.path && !t.pipe.path
  {
    ReachableInv(c, s);
    if CallerOver(s) {
      LeadsSince(c, s, t);
    }
  }

  /** There it can outlast CallTask: the caller gives up, its worker still holds its end. */
  lemma WindowsNameOutlasts(c: Call)
    requires c.platform == Windows
    ensures exists s :: Reachable(c, s) && Ended(s.caller) && s.pipe.path
  {
    var s := WorkerWaiting(c);
    ReachableInv(c, s);
    var t := Then(c, s, Accept(false));
    assert Reachable(c, t) && Ended(t.caller) && t.pipe.path;
  }
}
