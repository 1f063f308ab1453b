/** What a state of a session says about the actions that led to it, and they about it. Actions
    carry what the system answered and how the task ended, so this is where results, records
    and checks are held against what really happened. */
module SessionTrace {
  import opened Wrappers
  import opened Framing
  import opened JsonValues
  import opened Registry
  import opened Machine
  import opened Session
  import opened SessionInvariant

  ghost predicate Traced(c: Call, actions: seq<Action>, s: State) {
    Run(Stepper(c), START, actions) == Some(s)
  }

  // ------------------------------------------------------------------ the caller's side

  /** The pid on record is the one the launch gave, and a worker exists if it started one. */
  ghost predicate LaunchTrace(actions: seq<Action>, s: State) {
    && (forall pid, started | Launch(pid, started) in actions ::
          s.found.pid == pid && !s.caller.Creating? && !s.caller.Launching? && (started ==> !s.worker.Absent?))
    && (s.found.pid.Some? ==> Launch(s.found.pid, true) in actions || Launch(s.found.pid, false) in actions)
    && (!s.worker.Absent? ==> Launch(s.found.pid, true) in actions)
  }

  /** The peer on record is the one that was looked up. */
  ghost predicate PeerTrace(actions: seq<Action>, s: State) {
    && (forall remote, own, peer | CheckPeer(remote, own, peer) in actions ::
          s.found.peer == Some(Identity(remote, own, peer)))
    && (s.found.peer.Some? ==> var p := s.found.peer.value; CheckPeer(p.remote, p.ownPath, p.peerPath) in actions)
  }

  predicate TooLong(c: Call) {
    c.message.Some? && !Fits(c.message.value)
  }

  /** Each way for the caller to end has its own cause, and each cause that end. */
  ghost predicate CallerEnds(c: Call, actions: seq<Action>, s: State) {
    && (s.caller == Returned(Null, NoPipe) <==> Create(false) in actions)
    && (s.caller == Returned(Null, NotLaunched) <==> Launch(None, true) in actions || Launch(None, false) in actions)
    && (s.caller == Returned(Null, NotAccepted) <==> Accept(false) in actions)
    && (s.caller == Raised <==> Compose in actions && c.message.None?)
    && (s.caller == Returned(Null, NotSent) <==>
          (Compose in actions && TooLong(c)) || exists moved: nat :: FailSend(moved) in actions)
    && (s.caller == Returned(Null, NoResponse) <==> FailReceive in actions)
    && ((s.caller.Returned? && s.caller.stage == Answered) <==> Finish in actions)
    && (s.caller.CallerDied? <==> KillCaller in actions)
  }

  /** Where the two meet. */
  ghost predicate JoinTrace(c: Call, actions: seq<Action>, s: State) {
    && (s.pipe.connected <==> Connect in actions)
    && (Accepted in s.log <==> Accept(true) in actions)
    && (Accepted in s.log ==> s.pipe.connected)
    && (c.platform == Linux && Unlink in actions ==> !s.pipe.path)
    && (s.worker.Absent? || s.worker.Starting? || s.worker.Unlinking? ==> Unlink !in actions)
  }

  // ------------------------------------------------------------------ the worker's side

  ghost predicate HostTrace(actions: seq<Action>, s: State) {
    && (forall remote, own, peer | CheckHost(remote, own, peer) in actions ::
          s.found.host == Some(Identity(remote, own, peer)))
    && (s.found.host.Some? ==> var h := s.found.host.value; CheckHost(h.remote, h.ownPath, h.peerPath) in actions)
  }

  ghost predicate LoadTrace(actions: seq<Action>, s: State) {
    && (forall registers | Load(registers) in actions :: s.loaded == Some(registers))
    && (s.loaded.Some? ==> Load(s.loaded.value) in actions)
  }

  /** The answer is the value the task ended with, unless there was no task; a task that ends
      otherwise leaves none. */
  ghost predicate EndTrace(c: Call, actions: seq<Action>, s: State) {
    && (forall value | EndTask(Value(value)) in actions :: s.answer == Some(value))
    && (s.answer.Some? ==> EndTask(Value(s.answer.value)) in actions || NoTask(c, s))
    && (EndTask(JsonError) in actions ==> s.worker == Exited(-1) && s.answer.None?)
    && (EndTask(OtherError) in actions <==> s.worker.Escaped?)
    && (EndTask(OtherError) in actions ==> s.answer.None?)
    && (forall outcome | EndTask(outcome) in actions :: Runs(s.log) != [])
  }

  /** What the worker needs of a request: an object, with a module path that is a text if it has
      one, and then, to run a task, a name that is a text and parameters. */
  predicate Understood(c: Call) {
    c.message.Some? && match c.codec.parse(c.message.value)
      case Some(Object(fields)) => "modulePath" in fields ==> fields["modulePath"].Text?
      case _ => false
  }

  predicate NamesTask(c: Call) {
    c.message.Some? && match c.codec.parse(c.message.value)
      case Some(Object(fields)) => "taskName" in fields && fields["taskName"].Text? && "params" in fields
      case _ => false
  }

  /** What makes the worker give up. */
  predicate GaveUp(c: Call, actions: seq<Action>, s: State) {
    || Refuse in actions
    || (s.found.host.Some? && s.found.host.value.ownPath != s.found.host.value.peerPath)
    || FailRequest in actions
    || (ParseRequest in actions && !Understood(c))
    || (Dispatch in actions && !NamesTask(c))
    || EndTask(JsonError) in actions
    || (DumpAnswer in actions && s.answer.Some? && c.codec.dump(s.answer.value).None?)
  }

  /** An answer with a text is done with: too long to be sent, sent, or failed to be sent. */
  ghost predicate DoneWith(c: Call, actions: seq<Action>, s: State) {
    && DumpAnswer in actions && s.answer.Some? && c.codec.dump(s.answer.value).Some?
    && (!c.Answerable(s.answer.value) || s.response == c.AnswerFrame(s.answer.value)
        || exists moved: nat :: FailRespond(moved) in actions)
  }

  predicate Finished(worker: Worker) {
    worker.Exited? || worker.Escaped? || worker.WorkerDied?
  }

  ghost predicate WorkerEnds(c: Call, actions: seq<Action>, s: State) {
    && (s.worker == Exited(-1) <==> GaveUp(c, actions, s))
    && (s.worker == Exited(0) <==> DoneWith(c, actions, s))
    && (s.worker.WorkerDied? <==> KillWorker in actions)
    && (s.worker.Exited? ==> s.worker.status == 0 || s.worker.status == -1)
    && (DumpAnswer in actions ==> s.answer.Some? && (s.worker.Responding? || Finished(s.worker)))
    && (s.worker.Responding? ==> DumpAnswer in actions)
    && ((exists moved: nat :: FailRespond(moved) in actions) ==> Finished(s.worker))
  }

  ghost predicate CallerTrace(c: Call, actions: seq<Action>, s: State) {
    LaunchTrace(actions, s) && PeerTrace(actions, s) && CallerEnds(c, actions, s)
  }

  ghost predicate WorkerTrace(c: Call, actions: seq<Action>, s: State) {
    HostTrace(actions, s) && LoadTrace(actions, s) && EndTrace(c, actions, s) && WorkerEnds(c, actions, s)
  }

  ghost predicate TraceFits(c: Call, actions: seq<Action>, s: State) {
    CallerTrace(c, actions, s) && JoinTrace(c, actions, s) && WorkerTrace(c, actions, s)
  }

  ghost predicate TraceInv(c: Call, actions: seq<Action>, s: State) {
    Inv(c, s) && TraceFits(c, actions, s)
  }

  // ------------------------------------------------------------------ what the caller's steps keep

  lemma ConnectKeepsTrace(c: Call, actions: seq<Action>, s: State, a: Action)
    requires PeerInv(s) && LaunchTrace(actions, s) && PeerTrace(actions, s)
    requires NameInv(c, s) && ConnectStep(c, s, a).Some?
    ensures var t := ConnectStep(c, s, a).value; LaunchTrace(actions + [a], t) && PeerTrace(actions + [a], t)
  {
  }

  lemma ConnectKeepsEnds(c: Call, actions: seq<Action>, s: State, a: Action)
    requires CallerEnds(c, actions, s) && ConnectStep(c, s, a).Some?
    ensures CallerEnds(c, actions + [a], ConnectStep(c, s, a).value)
  {
  }

  lemma ExchangeKeepsTrace(c: Call, actions: seq<Action>, s: State, a: Action)
    requires RequestInv(c, s) && LaunchTrace(actions, s) && PeerTrace(actions, s) && ExchangeStep(c, s, a).Some?
    ensures var t := ExchangeStep(c, s, a).value; LaunchTrace(actions + [a], t) && PeerTrace(actions + [a], t)
  {
    CarryFor(c, s, a);
  }

  lemma ExchangeKeepsEnds(c: Call, actions: seq<Action>, s: State, a: Action)
    requires RequestInv(c, s) && CallerEnds(c, actions, s) && ExchangeStep(c, s, a).Some?
    ensures CallerEnds(c, actions + [a], ExchangeStep(c, s, a).value)
  {
    CarryFor(c, s, a);
  }

  /** Most steps neither join the two nor touch the name. */
  lemma QuietKeepsJoin(c: Call, actions: seq<Action>, s: State, a: Action, t: State)
    requires JoinTrace(c, actions, s) && a != Connect && a != Accept(true) && a != Unlink
    requires t.pipe.connected == s.pipe.connected && (t.pipe.path ==> s.pipe.path)
    requires (Accepted in t.log <==> Accepted in s.log) && (Early(t.worker) || t.worker.Unlinking? ==> Early(s.worker) || s.worker.Unlinking?)
    ensures JoinTrace(c, actions + [a], t)
  {
  }

  lemma ConnectKeepsJoin(c: Call, actions: seq<Action>, s: State, a: Action)
    requires NameInv(c, s) && JoinTrace(c, actions, s) && ConnectStep(c, s, a).Some?
    ensures JoinTrace(c, actions + [a], ConnectStep(c, s, a).value)
  {
  }

  lemma ExchangeKeepsJoin(c: Call, actions: seq<Action>, s: State, a: Action)
    requires RequestInv(c, s) && NameInv(c, s) && JoinTrace(c, actions, s) && ExchangeStep(c, s, a).Some?
    ensures JoinTrace(c, actions + [a], ExchangeStep(c, s, a).value)
  {
    CarryFor(c, s, a);
    QuietKeepsJoin(c, actions, s, a, ExchangeStep(c, s, a).value);
  }

  lemma CallerKeepsWorkerRecords(c: Call, actions: seq<Action>, s: State, a: Action, t: State)
    requires HostTrace(actions, s) && LoadTrace(actions, s) && CallerActs(a) && CallerFrame(s, t)
    ensures HostTrace(actions + [a], t) && LoadTrace(actions + [a], t)
  {
  }

  lemma CallerKeepsEndTrace(c: Call, actions: seq<Action>, s: State, a: Action, t: State)
    requires EndTrace(c, actions, s) && CallerActs(a) && CallerFrame(s, t)
    requires NameInv(c, s) && Runs(t.log) == Runs(s.log)
    ensures EndTrace(c, actions + [a], t)
  {
  }

  lemma CallerKeepsWorkerEnds(c: Call, actions: seq<Action>, s: State, a: Action, t: State)
    requires WorkerEnds(c, actions, s) && CallerActs(a) && CallerFrame(s, t) && NameInv(c, s)
    ensures WorkerEnds(c, actions + [a], t)
  {
    assert GaveUp(c, actions + [a], t) <==> GaveUp(c, actions, s);
    assert DoneWith(c, actions + [a], t) <==> DoneWith(c, actions, s);
  }

  // ------------------------------------------------------------------ what the worker's steps keep

  lemma WorkerKeepsCallerTrace(c: Call, actions: seq<Action>, s: State, a: Action, t: State)
    requires CallerTrace(c, actions, s) && !CallerActs(a) && WorkerFrame(s, t)
    ensures CallerTrace(c, actions + [a], t)
  {
  }

  lemma AttachKeepsJoin(c: Call, actions: seq<Action>, s: State, a: Action)
    requires JoinTrace(c, actions, s) && Attaching(s.worker) && AttachStep(c, s, a).Some?
    ensures JoinTrace(c, actions + [a], AttachStep(c, s, a).value)
  {
  }

  lemma AttachKeepsRecordsTrace(c: Call, actions: seq<Action>, s: State, a: Action)
    requires HostTrace(actions, s) && LoadTrace(actions, s) && HostInv(s)
    requires Attaching(s.worker) && AttachStep(c, s, a).Some?
    ensures var t := AttachStep(c, s, a).value; HostTrace(actions + [a], t) && LoadTrace(actions + [a], t)
  {
    AttachFrames(c, s, a);
  }

  lemma ParseKeepsEnds(c: Call, actions: seq<Action>, s: State)
    requires RequestInv(c, s) && WorkerEnds(c, actions, s) && s.worker.AwaitingRequest?
    requires HostInv(s) && AttachStep(c, s, ParseRequest).Some?
    ensures WorkerEnds(c, actions + [ParseRequest], AttachStep(c, s, ParseRequest).value)
  {
    TakenFrame(c, s);
  }

  lemma AttachKeepsEnds(c: Call, actions: seq<Action>, s: State, a: Action)
    requires HostInv(s) && WorkerEnds(c, actions, s) && !a.ParseRequest?
    requires Attaching(s.worker) && AttachStep(c, s, a).Some?
    ensures WorkerEnds(c, actions + [a], AttachStep(c, s, a).value)
  {
    AttachFrames(c, s, a);
  }

  lemma TaskKeepsRecordsTrace(c: Call, actions: seq<Action>, s: State, a: Action)
    requires HostTrace(actions, s) && LoadTrace(actions, s) && (BeforeLoading(s.worker) ==> s.loaded.None?)
    requires TaskStep(c, s, a).Some?
    ensures var t := TaskStep(c, s, a).value; HostTrace(actions + [a], t) && LoadTrace(actions + [a], t)
  {
    TaskFrames(c, s, a);
  }

  lemma TaskKeepsEnds(c: Call, actions: seq<Action>, s: State, a: Action)
    requires PayloadInv(c, s) && WorkerEnds(c, actions, s) && TaskStep(c, s, a).Some?
    ensures WorkerEnds(c, actions + [a], TaskStep(c, s, a).value)
  {
  }

  lemma AnswerKeepsEnds(c: Call, actions: seq<Action>, s: State, a: Action)
    requires AnswerInv(c, s) && WorkerEnds(c, actions, s) && Responsive(s.worker) && AnswerStep(c, s, a).Some?
    ensures WorkerEnds(c, actions + [a], AnswerStep(c, s, a).value)
  {
    var t := AnswerStep(c, s, a).value;
    if a.Respond? {
      ResponseGrows(c, s, s.worker.value, a.n);
      assert t.worker.Exited? <==> t.response == c.AnswerFrame(s.worker.value);
    } else if a.FailRespond? {
      assert a in actions + [a];
    }
  }

  lemma QuietKeepsEndTrace(c: Call, actions: seq<Action>, s: State, a: Action, t: State)
    requires EndTrace(c, actions, s) && !a.EndTask? && (Runs(s.log) != [] ==> Runs(t.log) != [])
    requires t.answer == s.answer && (t.loaded == s.loaded || s.answer.None?)
    requires !s.worker.Escaped? && !t.worker.Escaped? && !s.worker.Exited?
    ensures EndTrace(c, actions + [a], t)
  {
  }

  lemma DispatchKeepsEndTrace(c: Call, actions: seq<Action>, s: State, a: Action)
    requires s.worker.Dispatching? && TaskStep(c, s, a).Some? && PayloadInv(c, s) && WorkerChecked(c, s)
    requires s.answer.None? && Runs(s.log) == [] && EndTrace(c, actions, s)
    ensures EndTrace(c, actions + [a], TaskStep(c, s, a).value)
  {
    assert forall outcome :: EndTask(outcome) !in actions;
  }

  lemma EndKeepsEndTrace(c: Call, actions: seq<Action>, s: State, a: Action)
    requires s.worker.Running? && TaskStep(c, s, a).Some?
    requires s.answer.None? && Runs(s.log) != [] && EndTrace(c, actions, s)
    ensures EndTrace(c, actions + [a], TaskStep(c, s, a).value)
  {
    assert forall value :: EndTask(Value(value)) !in actions;
    assert TaskStep(c, s, a).value.log == s.log;
  }

  lemma TaskKeepsEndTrace(c: Call, actions: seq<Action>, s: State, a: Action)
    requires PayloadInv(c, s) && WorkerChecked(c, s) && AnswerInv(c, s) && TaskInv(c, s, Runs(s.log))
    requires EndTrace(c, actions, s) && TaskStep(c, s, a).Some?
    ensures EndTrace(c, actions + [a], TaskStep(c, s, a).value)
  {
    if s.worker.Loading? {
      QuietKeepsEndTrace(c, actions, s, a, TaskStep(c, s, a).value);
    } else if s.worker.Dispatching? {
      DispatchKeepsEndTrace(c, actions, s, a);
    } else {
      EndKeepsEndTrace(c, actions, s, a);
    }
  }

  // ------------------------------------------------------------------ every step, every run

  lemma ConnectTraced(c: Call, actions: seq<Action>, s: State, a: Action)
    requires TraceInv(c, actions, s) && ConnectStep(c, s, a).Some? && CallerActs(a)
    ensures TraceFits(c, actions + [a], ConnectStep(c, s, a).value)
  {
    ConnectKeepsTrace(c, actions, s, a);
    ConnectKeepsEnds(c, actions, s, a);
    ConnectKeepsJoin(c, actions, s, a);
    ConnectFrames(c, s, a);
    CallerKeepsWorkerTrace(c, actions, s, a, ConnectStep(c, s, a).value);
  }

  lemma ExchangeTraced(c: Call, actions: seq<Action>, s: State, a: Action)
    requires TraceInv(c, actions, s) && ExchangeStep(c, s, a).Some? && CallerActs(a)
    ensures TraceFits(c, actions + [a], ExchangeStep(c, s, a).value)
  {
    ExchangeKeepsTrace(c, actions, s, a);
    ExchangeKeepsEnds(c, actions, s, a);
    ExchangeKeepsJoin(c, actions, s, a);
    ExchangeFrames(c, s, a);
    CallerKeepsWorkerTrace(c, actions, s, a, ExchangeStep(c, s, a).value);
  }

  lemma CallerKeepsWorkerTrace(c: Call, actions: seq<Action>, s: State, a: Action, t: State)
    requires Inv(c, s) && WorkerTrace(c, actions, s) && CallerActs(a) && CallerFrame(s, t)
    ensures WorkerTrace(c, actions + [a], t)
  {
    CallerKeepsTask(c, s, t, Runs(s.log));
    RunsGrow(s.log, t.log);
    CallerKeepsWorkerRecords(c, actions, s, a, t);
    CallerKeepsEndTrace(c, actions, s, a, t);
    CallerKeepsWorkerEnds(c, actions, s, a, t);
  }

  lemma CallerDeathKeepsTrace(c: Call, actions: seq<Action>, s: State)
    requires CallerTrace(c, actions, s) && CallerStep(c, s, KillCaller).Some?
    ensures CallerTrace(c, actions + [KillCaller], CallerStep(c, s, KillCaller).value)
  {
    assert LaunchTrace(actions + [KillCaller], CallerStep(c, s, KillCaller).value);
  }

  lemma CallerDeathTraced(c: Call, actions: seq<Action>, s: State)
    requires TraceInv(c, actions, s) && CallerStep(c, s, KillCaller).Some?
    ensures TraceFits(c, actions + [KillCaller], CallerStep(c, s, KillCaller).value)
  {
    var t := CallerStep(c, s, KillCaller).value;
    CallerFrames(c, s, KillCaller);
    CallerDeathKeepsTrace(c, actions, s);
    QuietKeepsJoin(c, actions, s, KillCaller, t);
    CallerKeepsWorkerTrace(c, actions, s, KillCaller, t);
  }

  lemma AttachTraced(c: Call, actions: seq<Action>, s: State, a: Action)
    requires TraceInv(c, actions, s) && Attaching(s.worker) && AttachStep(c, s, a).Some? && !CallerActs(a)
    ensures TraceFits(c, actions + [a], AttachStep(c, s, a).value)
  {
    var t := AttachStep(c, s, a).value;
    AttachFrames(c, s, a);
    WorkerKeepsCallerTrace(c, actions, s, a, t);
    AttachKeepsJoin(c, actions, s, a);
    AttachKeepsRecordsTrace(c, actions, s, a);
    RunsGrow(s.log, t.log);
    QuietKeepsEndTrace(c, actions, s, a, t);
    if a.ParseRequest? {
      ParseKeepsEnds(c, actions, s);
    } else {
      AttachKeepsEnds(c, actions, s, a);
    }
  }

  lemma TaskTraced(c: Call, actions: seq<Action>, s: State, a: Action)
    requires TraceInv(c, actions, s) && TaskStep(c, s, a).Some? && !CallerActs(a)
    ensures TraceFits(c, actions + [a], TaskStep(c, s, a).value)
  {
    var t := TaskStep(c, s, a).value;
    TaskFrames(c, s, a);
    WorkerKeepsCallerTrace(c, actions, s, a, t);
    QuietKeepsJoin(c, actions, s, a, t);
    TaskKeepsRecordsTrace(c, actions, s, a);
    TaskKeepsEndTrace(c, actions, s, a);
    TaskKeepsEnds(c, actions, s, a);
  }

  lemma AnswerTraced(c: Call, actions: seq<Action>, s: State, a: Action)
    requires TraceInv(c, actions, s) && Responsive(s.worker) && AnswerStep(c, s, a).Some? && !CallerActs(a)
    ensures TraceFits(c, actions + [a], AnswerStep(c, s, a).value)
  {
    var t := AnswerStep(c, s, a).value;
    AnswerFrames(c, s, a);
    WorkerKeepsCallerTrace(c, actions, s, a, t);
    QuietKeepsJoin(c, actions, s, a, t);
    QuietKeepsEndTrace(c, actions, s, a, t);
    AnswerKeepsEnds(c, actions, s, a);
  }

  lemma DeathKeepsEnds(c: Call, actions: seq<Action>, s: State)
    requires AnswerInv(c, s) && HostInv(s) && WorkerEnds(c, actions, s) && WorkerStep(c, s, KillWorker).Some?
    ensures WorkerEnds(c, actions + [KillWorker], WorkerStep(c, s, KillWorker).value)
  {
    var t := WorkerStep(c, s, KillWorker).value;
    assert GaveUp(c, actions + [KillWorker], t) <==> GaveUp(c, actions, s);
  }

  lemma DeathKeepsWorkerTrace(c: Call, actions: seq<Action>, s: State)
    requires AnswerInv(c, s) && HostInv(s) && WorkerTrace(c, actions, s) && WorkerStep(c, s, KillWorker).Some?
    ensures WorkerTrace(c, actions + [KillWorker], WorkerStep(c, s, KillWorker).value)
  {
    var t := WorkerStep(c, s, KillWorker).value;
    QuietKeepsEndTrace(c, actions, s, KillWorker, t);
    DeathKeepsEnds(c, actions, s);
    assert HostTrace(actions + [KillWorker], t);
  }

  lemma WorkerDeathTraced(c: Call, actions: seq<Action>, s: State)
    requires TraceInv(c, actions, s) && WorkerStep(c, s, KillWorker).Some?
    ensures TraceFits(c, actions + [KillWorker], WorkerStep(c, s, KillWorker).value)
  {
    var t := WorkerStep(c, s, KillWorker).value;
    WorkerFrames(c, s, KillWorker);
    WorkerKeepsCallerTrace(c, actions, s, KillWorker, t);
    QuietKeepsJoin(c, actions, s, KillWorker, t);
    DeathKeepsWorkerTrace(c, actions, s);
  }

  lemma StepTraced(c: Call, actions: seq<Action>, s: State, a: Action)
    requires TraceInv(c, actions, s) && Step(c, s, a).Some?
    ensures TraceInv(c, actions + [a], Step(c, s, a).value)
  {
    StepKeeps(c, s, a);
    if a.KillCaller? {
      CallerDeathTraced(c, actions, s);
    } else if a.KillWorker? {
      WorkerDeathTraced(c, actions, s);
    } else if CallerActs(a) && (s.caller.Sending? || s.caller.Receiving?) {
      ExchangeTraced(c, actions, s, a);
    } else if CallerActs(a) {
      ConnectTraced(c, actions, s, a);
    } else if Attaching(s.worker) {
      AttachTraced(c, actions, s, a);
    } else if Responsive(s.worker) {
      AnswerTraced(c, actions, s, a);
    } else {
      TaskTraced(c, actions, s, a);
    }
  }

  /** The state of every run and the actions that led to it fit together. */
  lemma TracedInv(c: Call, actions: seq<Action>, s: State)
    requires Traced(c, actions, s)
    ensures TraceInv(c, actions, s) && Reachable(c, s)
  {
    forall past: seq<Action>, x: State, a: Action | TraceInv(c, past, x) && Stepper(c)(x, a).Some?
      ensures TraceInv(c, past + [a], Stepper(c)(x, a).value)
    {
      StepTraced(c, past, x, a);
    }
    TraceKeeps(Stepper(c), (past, x) => TraceInv(c, past, x), START, [], actions);
    assert [] + actions == actions;
  }
}
