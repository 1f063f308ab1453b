/** What every run of a session keeps. */
module SessionInvariant {
  import opened Wrappers
  import opened Framing
  import opened JsonValues
  import opened Registry
  import opened Machine
  import opened Session

  // ------------------------------------------------------------------ the request

  predicate BeforeSending(caller: Caller) {
    caller.Creating? || caller.Launching? || caller.Accepting? || caller.Checking? || caller.Composing?
    || caller.Raised?
    || (caller.Returned? && (caller.stage.NoPipe? || caller.stage.NotLaunched? || caller.stage.NotAccepted?
                             || caller.stage.PeerRefused?))
  }

  predicate AfterSending(caller: Caller) {
    caller.Receiving? || (caller.Returned? && (caller.stage.NoResponse? || caller.stage.Answered?))
  }

  predicate FailedSend(caller: Caller) {
    caller.Returned? && caller.stage.NotSent?
  }

  predicate Delivered(c: Call, s: State) {
    c.Sendable() && s.request == c.Frame()
  }

  /** The bytes sent are a prefix of the one request frame, as far as the caller has got. */
  predicate RequestInv(c: Call, s: State) {
    && s.requestRead <= |s.request|
    && (s.request != [] ==> c.Sendable())
    && (c.Sendable() ==> s.request <= c.Frame())
    && (BeforeSending(s.caller) ==> s.request == [])
    && (s.caller.Sending? ==> c.Sendable() && s.request < c.Frame())
    && (AfterSending(s.caller) ==> Delivered(c, s))
    && (RequestDelivered in s.log <==> Delivered(c, s))
    && (FailedSend(s.caller) && c.platform == Linux ==> !Delivered(c, s))
  }

  // ------------------------------------------------------------------ the checks

  /** The worker is past its own check of the host. */
  predicate HostAccepted(worker: Worker) {
    worker.AwaitingRequest? || RequestTaken(worker)
  }

  /** The worker has read a whole request. */
  predicate RequestTaken(worker: Worker) {
    worker.Loading? || worker.Dispatching? || TaskKnown(worker)
  }

  predicate TaskKnown(worker: Worker) {
    worker.Running? || worker.Answering? || worker.Responding?
  }

  predicate CallerChecked(s: State) {
    && (s.request != [] || s.caller.Composing? || s.caller.Sending? ==> Accepted in s.log && PeerChecked in s.log)
    && (s.caller.Checking? ==> Accepted in s.log)
  }

  predicate WorkerChecked(c: Call, s: State) {
    && (HostAccepted(s.worker) ==> HostChecked in s.log)
    && (s.worker.Absent? || s.worker.Starting? || s.worker.Unlinking? || s.worker.CheckingHost? ==> s.requestRead == 0)
    && (RequestTaken(s.worker) ==> Delivered(c, s))
    && (s.worker.Dispatching? ==> s.loaded == Some(s.worker.registers))
    && (TaskKnown(s.worker) ==> s.loaded.Some?)
  }

  predicate CheckInv(c: Call, s: State) {
    CallerChecked(s) && WorkerChecked(c, s)
  }

  /** What the worker makes of a delivered request; None if it gives up on it. */
  function Seen(c: Call): Option<Json>
    requires c.Sendable()
  {
    var parsed := c.codec.parse(c.message.value);
    if parsed.Some? && TextOr(parsed.value, "modulePath", "").Some? then parsed else None
  }

  /** The module the request asks for, once it is understood. */
  function ModuleOf(c: Call): string {
    if c.Sendable() && Seen(c).Some? then PathIn(Seen(c).value) else ""
  }

  /** Loading is tried once, and with the module the request asks for. */
  ghost predicate LoadInv(c: Call, s: State) {
    && (forall path :: LoadTried(path) in s.log ==> s.loaded.Some? && path == ModuleOf(c))
    && (s.loaded.Some? ==> LoadTried(ModuleOf(c)) in s.log)
  }

  predicate PayloadInv(c: Call, s: State) {
    && (s.worker.Loading? ==> c.Sendable() && Seen(c) == Some(s.worker.request))
    && (s.worker.Dispatching? ==> c.Sendable() && Seen(c) == Some(s.worker.request))
  }

  // ------------------------------------------------------------------ the task

  function Runs(log: seq<Event>): seq<Event> {
    if log == [] then []
    else Runs(log[..|log| - 1]) + if log[|log| - 1].Ran? then [log[|log| - 1]] else []
  }

  lemma RunsSnoc(log: seq<Event>, e: Event)
    ensures Runs(log + [e]) == Runs(log) + if e.Ran? then [e] else []
  {
    assert (log + [e])[..|log|] == log;
  }

  /** A task starts only after all of these. */
  predicate Cleared(c: Call, log: seq<Event>) {
    && Accepted in log && PeerChecked in log && HostChecked in log
    && RequestDelivered in log && LoadTried(ModuleOf(c)) in log
  }

  ghost predicate InOrder(c: Call, log: seq<Event>) {
    forall i | 0 <= i < |log| && log[i].Ran? :: Cleared(c, log[..i])
  }

  /** The callback and the parameters are those the request names, looked up among the
      registrations of the host and then of the module. */
  predicate RightTask(c: Call, s: State, e: Event) {
    && e.Ran?
    && c.Sendable() && Seen(c).Some? && s.loaded.Some?
    && TextAt(Seen(c).value, "taskName").Some?
    && MemberAt(Seen(c).value, "params") == Some(e.params)
    && Lookup(c.Registrations(Seen(c).value, s.loaded.value), TextAt(Seen(c).value, "taskName").value) == Some(e.task)
  }

  predicate BeforeLoading(worker: Worker) {
    worker.Absent? || worker.Starting? || worker.Unlinking? || worker.CheckingHost?
    || worker.AwaitingRequest? || worker.Loading?
  }

  /** The request names a task under which nothing valid was registered. */
  predicate NoTask(c: Call, s: State) {
    && c.Sendable() && Seen(c).Some? && s.loaded.Some?
    && TextAt(Seen(c).value, "taskName").Some?
    && Lookup(c.Registrations(Seen(c).value, s.loaded.value), TextAt(Seen(c).value, "taskName").value).None?
  }

  predicate TaskPending(worker: Worker) {
    !(TaskKnown(worker) || worker.Exited? || worker.Escaped? || worker.WorkerDied?)
  }

  predicate TaskInv(c: Call, s: State, runs: seq<Event>) {
    && |runs| <= 1
    && (TaskPending(s.worker) ==> runs == [])
    && (s.worker.Running? ==> |runs| == 1)
    && (runs != [] ==> RightTask(c, s, runs[0]))
    && (BeforeLoading(s.worker) ==> s.loaded.None?)
  }

  // ------------------------------------------------------------------ the answer

  predicate AnswerInv(c: Call, s: State) {
    && s.responseRead <= |s.response|
    && (TaskPending(s.worker) || s.worker.Running? ==> s.answer.None?)
    && (s.answer.None? ==> s.response == [])
    && (s.worker.Answering? ==> s.answer == Some(s.worker.value) && s.response == [])
    && (s.worker.Responding? ==> s.answer == Some(s.worker.value) && c.Answerable(s.worker.value)
                                 && s.response < c.AnswerFrame(s.worker.value))
    && (s.response != [] ==> c.Answerable(s.answer.value) && s.response <= c.AnswerFrame(s.answer.value))
    && (s.caller.Returned? ==>
          if s.caller.stage.Answered? then
            && s.answer.Some? && c.Answerable(s.answer.value)
            && s.caller.result == Fold(c.codec, c.codec.dump(s.answer.value).value)
          else s.caller.result == Null)
  }

  /** An answer is a task's value, or `false` because there was no task. */
  predicate SourceInv(c: Call, s: State, runs: seq<Event>) {
    s.answer.Some? && runs == [] ==> s.answer == Some(Bool(false)) && NoTask(c, s)
  }

  // ------------------------------------------------------------------ what is on record

  predicate Trusted(pid: Option<nat>, peer: Identity) {
    pid == Some(peer.remote) || peer.ownPath == peer.peerPath
  }

  /** Whom the caller lets through, and whom it does not. */
  predicate PeerInv(s: State) {
    && (s.caller.Accepting? || s.caller.Checking? ==> s.found.pid == Some(s.caller.pid))
    && (BeforeChecked(s.caller) ==> s.found.peer.None?)
    && (PeerChecked in s.log <==> s.found.peer.Some? && Trusted(s.found.pid, s.found.peer.value))
    && (s.caller == Returned(Null, PeerRefused) <==> s.found.peer.Some? && !Trusted(s.found.pid, s.found.peer.value))
  }

  /** Whom the worker lets through; with anyone else it exits and reads nothing. */
  predicate HostInv(s: State) {
    && (s.worker.Absent? || s.worker.Starting? || s.worker.Unlinking? || s.worker.CheckingHost? ==> s.found.host.None?)
    && (HostChecked in s.log <==> s.found.host.Some? && s.found.host.value.ownPath == s.found.host.value.peerPath)
    && (s.found.host.Some? && s.found.host.value.ownPath != s.found.host.value.peerPath ==>
          s.worker == Exited(-1) && s.requestRead == 0)
  }

  /** Why a worker exited as it did. */
  predicate ExitInv(c: Call, s: State) {
    s.worker.Exited? ==> s.worker.status == if s.answer.Some? && c.codec.dump(s.answer.value).Some? then 0 else -1
  }

  predicate BeforeChecked(caller: Caller) {
    caller.Creating? || caller.Launching? || caller.Accepting? || caller.Checking?
  }

  // ------------------------------------------------------------------ the name

  predicate Early(worker: Worker) {
    worker.Absent? || worker.Starting?
  }

  /** Who holds an end, and what the name hangs on: on Linux an open end bound to it, whose
      destructor will remove it, unless the process that held it died; on Windows any end. */
  predicate NameInv(c: Call, s: State) {
    && (Listening(s) ==> s.caller.Launching? || s.caller.Accepting?)
    && (!s.worker.Absent? ==> !s.caller.Creating? && !s.caller.Launching?)
    && (s.caller.Creating? || CallerOver(s) ==> s.pipe.caller.Shut?)
    && (Early(s.worker) || Gone(s.worker) ==> s.pipe.worker.Shut?)
    && match c.platform
      case Linux => s.pipe.path ==> s.caller.CallerDied? || Bound(s.pipe.caller)
      case Windows => s.pipe.path <==> s.pipe.caller.Open? || s.pipe.worker.Open?
  }

  ghost predicate Inv(c: Call, s: State) {
    RequestInv(c, s) && CheckInv(c, s) && PayloadInv(c, s) && LoadInv(c, s) && InOrder(c, s.log) && NameInv(c, s)
    && PeerInv(s) && HostInv(s) && ExitInv(c, s)
    && TaskInv(c, s, Runs(s.log)) && AnswerInv(c, s) && SourceInv(c, s, Runs(s.log))
  }

  // ------------------------------------------------------------------ preservation

  lemma CompletePrefix(got: seq<byte>, p: Payload)
    requires Fits(p) && got <= Frame(p) && Complete(got)
    ensures got == Frame(p) && got[HEADER_SIZE..] == p
  {
    if got < Frame(p) {
      StrictPrefixIncomplete(got, p);
    }
  }

  /** What moving `n` more bytes of the request does, from the point where some are left. */
  lemma CarryKeeps(c: Call, s: State, n: nat)
    requires c.Sendable() && s.request < c.Frame()
    requires |s.request| + n <= |c.Frame()|
    requires RequestDelivered !in s.log
    ensures CarryKept(c, s, n)
  {
    var frame := c.Frame();
    assert s.request == frame[..|s.request|];
    assert frame[..|s.request|] + frame[|s.request|..|s.request| + n] == frame[..|s.request| + n];
  }

  predicate CarryKept(c: Call, s: State, n: nat)
    requires c.Sendable() && |s.request| + n <= |c.Frame()|
  {
    var t := Carry(c, s, n);
      && s.request <= t.request <= c.Frame() && |t.request| == |s.request| + n
      && t == s.(request := t.request, log := t.log)
      && (t.log == s.log || t.log == s.log + [RequestDelivered])
      && (RequestDelivered in t.log <==> t.request == c.Frame())
      && (t.request == c.Frame() <==> |t.request| == |c.Frame()|)
  }

  predicate AtMostOneMore(before: seq<Event>, log: seq<Event>) {
    before <= log && |log| <= |before| + 1
  }

  // ------------------------------------------------------------------ what steps leave alone

  /** What no step of the worker touches. */
  predicate WorkerFrame(s: State, t: State) {
    && t.caller == s.caller && t.request == s.request && t.responseRead == s.responseRead
    && t.pipe.caller == s.pipe.caller && (t.pipe.path ==> s.pipe.path)
    && t.found.pid == s.found.pid && t.found.peer == s.found.peer
    && (t.requestRead == s.requestRead || s.requestRead <= t.requestRead <= |s.request|)
    && s.response <= t.response
    && !s.worker.Absent? && !Early(t.worker)
    && AtMostOneMore(s.log, t.log)
    && (|t.log| > |s.log| ==> var e := t.log[|s.log|]; e.HostChecked? || e.LoadTried? || e.Ran?)
  }

  /** What the worker does to the pipe's name: it opens an end to a name that exists, or
      removes the name, or closes its end. */
  predicate EndsKept(c: Call, s: State, t: State) {
    && (Gone(t.worker) ==> t.pipe.worker.Shut?)
    && (t.pipe.worker.Open? ==> s.pipe.worker.Open? || s.pipe.path)
    && (c.platform == Windows && t.pipe != s.pipe ==>
          t.pipe.path == (s.pipe.path && (t.pipe.caller.Open? || t.pipe.worker.Open?)))
  }

  predicate AttachFrame(s: State, t: State) {
    && Attaching(s.worker) && (Attaching(t.worker) || t.worker.Loading? || t.worker.Exited?)
    && t.response == s.response && t.loaded == s.loaded && t.answer == s.answer
    && (|t.log| > |s.log| ==> t.log[|s.log|].HostChecked?)
  }

  predicate TaskFrame(s: State, t: State) {
    && t.requestRead == s.requestRead && t.response == s.response && t.found == s.found
    && t.pipe.connected == s.pipe.connected
    && !Attaching(t.worker) && !t.worker.Loading? && !t.worker.Responding?
    && (|t.log| > |s.log| ==> t.log[|s.log|].LoadTried? || t.log[|s.log|].Ran?)
  }

  predicate AnswerFrame(s: State, t: State) {
    && Responsive(s.worker) && (t.worker.Responding? || t.worker.Exited?)
    && t.requestRead == s.requestRead && t.loaded == s.loaded && t.answer == s.answer
    && t.found == s.found && t.log == s.log && t.pipe.connected == s.pipe.connected
  }

  lemma AttachFrames(c: Call, s: State, a: Action)
    requires Attaching(s.worker) && AttachStep(c, s, a).Some?
    ensures var t := AttachStep(c, s, a).value; WorkerFrame(s, t) && AttachFrame(s, t)
  {
  }

  lemma AttachEnds(c: Call, s: State, a: Action)
    requires Attaching(s.worker) && AttachStep(c, s, a).Some?
    ensures EndsKept(c, s, AttachStep(c, s, a).value)
  {
  }

  lemma TaskFrames(c: Call, s: State, a: Action)
    requires TaskStep(c, s, a).Some?
    ensures var t := TaskStep(c, s, a).value; WorkerFrame(s, t) && TaskFrame(s, t) && EndsKept(c, s, t)
  {
  }

  lemma AnswerFrames(c: Call, s: State, a: Action)
    requires Responsive(s.worker) && AnswerStep(c, s, a).Some?
    ensures var t := AnswerStep(c, s, a).value; WorkerFrame(s, t) && AnswerFrame(s, t) && EndsKept(c, s, t)
  {
  }

  /** What no step of the caller touches; only a launch makes a worker. */
  predicate CallerFrame(s: State, t: State) {
    && (t.worker == s.worker || (s.caller.Launching? && t.worker.Starting?))
    && t.requestRead == s.requestRead && t.response == s.response
    && t.loaded == s.loaded && t.answer == s.answer && t.found.host == s.found.host
    && t.pipe.worker == s.pipe.worker && t.pipe.connected == s.pipe.connected
    && s.request <= t.request
    && AtMostOneMore(s.log, t.log)
    && (|t.log| > |s.log| ==> var e := t.log[|s.log|]; e.Accepted? || e.PeerChecked? || e.RequestDelivered?)
  }

  /** Before the exchange the caller moves no byte, and if it returns it returns null. */
  predicate ConnectFrame(s: State, t: State) {
    && t.request == s.request && t.responseRead == s.responseRead
    && (BeforeSending(t.caller) || t.caller.Sending? || FailedSend(t.caller))
    && (t.caller.Returned? ==> t.caller.result == Null)
    && (|t.log| > |s.log| ==> t.log[|s.log|].Accepted? || t.log[|s.log|].PeerChecked?)
  }

  lemma ConnectFrames(c: Call, s: State, a: Action)
    requires ConnectStep(c, s, a).Some?
    ensures var t := ConnectStep(c, s, a).value; CallerFrame(s, t) && ConnectFrame(s, t)
  {
  }

  lemma CarryFor(c: Call, s: State, a: Action)
    requires RequestInv(c, s) && ExchangeStep(c, s, a).Some?
    ensures s.caller.Sending? && a.Send? ==> CarryKept(c, s, a.n)
    ensures s.caller.Sending? && a.FailSend? ==> CarryKept(c, s, a.moved)
  {
    if s.caller.Sending? && a.Send? {
      CarryKeeps(c, s, a.n);
    } else if s.caller.Sending? && a.FailSend? {
      CarryKeeps(c, s, a.moved);
    }
  }

  lemma ExchangeFrames(c: Call, s: State, a: Action)
    requires RequestInv(c, s) && ExchangeStep(c, s, a).Some?
    ensures CallerFrame(s, ExchangeStep(c, s, a).value)
  {
    CarryFor(c, s, a);
  }

  // ------------------------------------------------------------------ the request, the checks and the name

  lemma ConnectKeepsRequest(c: Call, s: State, a: Action)
    requires RequestInv(c, s) && ConnectStep(c, s, a).Some?
    ensures RequestInv(c, ConnectStep(c, s, a).value)
  {
    ConnectFrames(c, s, a);
    assert s.request == [];
  }

  lemma ConnectKeepsName(c: Call, s: State, a: Action)
    requires NameInv(c, s) && ConnectStep(c, s, a).Some?
    ensures NameInv(c, ConnectStep(c, s, a).value)
  {
  }

  lemma ConnectKeepsChecks(c: Call, s: State, a: Action)
    requires RequestInv(c, s) && CallerChecked(s) && ConnectStep(c, s, a).Some?
    ensures CallerChecked(ConnectStep(c, s, a).value)
  {
    assert ConnectStep(c, s, a).value.request == s.request;
  }

  lemma ExchangeKeepsRequest(c: Call, s: State, a: Action)
    requires RequestInv(c, s) && ExchangeStep(c, s, a).Some?
    ensures RequestInv(c, ExchangeStep(c, s, a).value)
  {
    CarryFor(c, s, a);
  }

  lemma ExchangeKeepsChecks(c: Call, s: State, a: Action)
    requires RequestInv(c, s) && CallerChecked(s) && ExchangeStep(c, s, a).Some?
    ensures CallerChecked(ExchangeStep(c, s, a).value)
  {
    CarryFor(c, s, a);
  }

  lemma ExchangeKeepsName(c: Call, s: State, a: Action)
    requires RequestInv(c, s) && NameInv(c, s) && ExchangeStep(c, s, a).Some?
    ensures NameInv(c, ExchangeStep(c, s, a).value)
  {
    CarryFor(c, s, a);
  }

  lemma CallerKeepsChecks(c: Call, s: State, t: State)
    requires CallerFrame(s, t) && RequestInv(c, t) && NameInv(c, s) && WorkerChecked(c, s)
    ensures WorkerChecked(c, t)
  {
  }

  lemma WorkerKeepsRequest(c: Call, s: State, t: State)
    requires RequestInv(c, s) && WorkerFrame(s, t)
    ensures RequestInv(c, t)
    ensures PeerInv(s) ==> PeerInv(t)
    ensures CallerChecked(s) ==> CallerChecked(t)
  {
  }

  lemma WorkerKeepsName(c: Call, s: State, t: State)
    requires NameInv(c, s) && WorkerFrame(s, t) && EndsKept(c, s, t)
    ensures NameInv(c, t)
  {
  }

  lemma AttachKeeps(c: Call, s: State, a: Action)
    requires RequestInv(c, s) && WorkerChecked(c, s) && Attaching(s.worker) && AttachStep(c, s, a).Some?
    ensures var t := AttachStep(c, s, a).value; WorkerChecked(c, t) && PayloadInv(c, t)
  {
    if a.ParseRequest? {
      TakenFrame(c, s);
    } else {
      AttachFrames(c, s, a);
      assert !AttachStep(c, s, a).value.worker.Loading?;
    }
  }

  lemma TaskKeeps(c: Call, s: State, a: Action)
    requires WorkerChecked(c, s) && PayloadInv(c, s) && LoadInv(c, s) && TaskStep(c, s, a).Some?
    ensures var t := TaskStep(c, s, a).value; WorkerChecked(c, t) && PayloadInv(c, t) && LoadInv(c, t)
  {
    TaskFrames(c, s, a);
    assert TaskStep(c, s, a).value.request == s.request;
  }

  /** A whole message read by the worker is the caller's request. */
  lemma TakenFrame(c: Call, s: State)
    requires RequestInv(c, s) && Complete(Taken(s))
    ensures Delivered(c, s) && Taken(s)[HEADER_SIZE..] == c.message.value
  {
    CompletePrefix(Taken(s), c.message.value);
  }

  // ------------------------------------------------------------------ the task

  /** The task starts among the events between two logs. */
  function NewRuns(before: seq<Event>, log: seq<Event>): seq<Event> {
    if |log| > |before| && log[|before|].Ran? then [log[|before|]] else []
  }

  lemma RunsGrow(before: seq<Event>, log: seq<Event>)
    requires AtMostOneMore(before, log)
    ensures Runs(log) == Runs(before) + NewRuns(before, log)
  {
    if |log| > |before| {
      assert log[..|log| - 1] == before;
    } else {
      assert log == before;
    }
  }

  lemma OrderGrows(c: Call, before: seq<Event>, log: seq<Event>)
    requires InOrder(c, before) && AtMostOneMore(before, log)
    requires |log| > |before| && log[|before|].Ran? ==> Cleared(c, before)
    ensures InOrder(c, log)
  {
    forall i | 0 <= i < |log| && log[i].Ran? ensures Cleared(c, log[..i]) {
      if i < |before| {
        assert log[..i] == before[..i];
      } else {
        assert log[..i] == before;
      }
    }
  }

  lemma CallerKeepsTask(c: Call, s: State, t: State, runs: seq<Event>)
    requires CallerFrame(s, t) && NameInv(c, s) && TaskInv(c, s, runs) && PayloadInv(c, s) && LoadInv(c, s) && SourceInv(c, s, runs)
    ensures LoadInv(c, t) && TaskInv(c, t, runs) && PayloadInv(c, t) && SourceInv(c, t, runs) && NewRuns(s.log, t.log) == []
  {
  }

  lemma AttachKeepsTask(c: Call, s: State, t: State, runs: seq<Event>)
    requires AttachFrame(s, t) && WorkerFrame(s, t) && LoadInv(c, s) && TaskInv(c, s, runs) && SourceInv(c, s, runs)
    ensures LoadInv(c, t) && TaskInv(c, t, runs) && SourceInv(c, t, runs) && NewRuns(s.log, t.log) == []
  {
  }

  lemma LoadKeepsTask(c: Call, s: State, a: Action, runs: seq<Event>)
    requires s.worker.Loading? && TaskStep(c, s, a).Some? && TaskInv(c, s, runs) && s.answer.None?
    ensures var t := TaskStep(c, s, a).value;
      TaskInv(c, t, runs) && SourceInv(c, t, runs) && NewRuns(s.log, t.log) == []
  {
  }

  lemma DispatchKeepsTask(c: Call, s: State, a: Action, runs: seq<Event>)
    requires s.worker.Dispatching? && TaskStep(c, s, a).Some? && TaskInv(c, s, runs) && s.answer.None?
    requires s.loaded == Some(s.worker.registers) && PayloadInv(c, s)
    ensures var t := TaskStep(c, s, a).value;
      TaskInv(c, t, runs + NewRuns(s.log, t.log)) && SourceInv(c, t, runs + NewRuns(s.log, t.log))
  {
    var t := TaskStep(c, s, a).value;
    assert runs == [];
    if t.worker.Running? {
      assert RightTask(c, t, t.log[|s.log|]);
    } else if t.answer.Some? {
      assert NoTask(c, t);
    }
  }

  lemma EndKeepsTask(c: Call, s: State, a: Action, runs: seq<Event>)
    requires s.worker.Running? && TaskStep(c, s, a).Some? && TaskInv(c, s, runs)
    ensures var t := TaskStep(c, s, a).value;
      TaskInv(c, t, runs) && SourceInv(c, t, runs) && NewRuns(s.log, t.log) == []
  {
    assert RightTask(c, TaskStep(c, s, a).value, runs[0]);
  }

  lemma TaskKeepsTask(c: Call, s: State, a: Action, runs: seq<Event>)
    requires TaskStep(c, s, a).Some? && TaskInv(c, s, runs) && AnswerInv(c, s)
    requires WorkerChecked(c, s) && PayloadInv(c, s)
    ensures var t := TaskStep(c, s, a).value; var more := runs + NewRuns(s.log, t.log);
      TaskInv(c, t, more) && SourceInv(c, t, more)
  {
    if s.worker.Loading? {
      LoadKeepsTask(c, s, a, runs);
    } else if s.worker.Dispatching? {
      DispatchKeepsTask(c, s, a, runs);
    } else {
      EndKeepsTask(c, s, a, runs);
    }
    assert runs + [] == runs;
  }

  lemma RunsWhenCleared(c: Call, s: State, a: Action)
    requires RequestInv(c, s) && CheckInv(c, s) && LoadInv(c, s) && TaskStep(c, s, a).Some?
    ensures NewRuns(s.log, TaskStep(c, s, a).value.log) != [] ==> Cleared(c, s.log)
  {
    if s.worker.Dispatching? {
      assert Delivered(c, s) && s.request != [];
    }
  }

  /** While the answer is on its way nothing else changes. */
  lemma AnswerKeepsMost(c: Call, s: State, t: State, runs: seq<Event>)
    requires AnswerFrame(s, t) && WorkerFrame(s, t)
    requires WorkerChecked(c, s) && LoadInv(c, s) && TaskInv(c, s, runs) && SourceInv(c, s, runs) && HostInv(s)
    ensures LoadInv(c, t) && WorkerChecked(c, t) && TaskInv(c, t, runs) && SourceInv(c, t, runs) && HostInv(t) && PayloadInv(c, t)
  {
    assert runs != [] ==> RightTask(c, t, runs[0]);
  }

  // ------------------------------------------------------------------ the answer

  lemma ConnectKeepsAnswer(c: Call, s: State, t: State)
    requires CallerFrame(s, t) && ConnectFrame(s, t) && NameInv(c, s) && AnswerInv(c, s)
    ensures AnswerInv(c, t)
  {
  }

  lemma ExchangeKeepsAnswer(c: Call, s: State, a: Action)
    requires RequestInv(c, s) && ExchangeStep(c, s, a).Some? && AnswerInv(c, s)
    ensures AnswerInv(c, ExchangeStep(c, s, a).value)
  {
    ExchangeFrames(c, s, a);
    if s.caller.Receiving? && a.Finish? {
      CompletePrefix(Response(s), c.codec.dump(s.answer.value).value);
    }
  }

  lemma AttachKeepsAnswer(c: Call, s: State, t: State)
    requires AttachFrame(s, t) && WorkerFrame(s, t) && AnswerInv(c, s)
    ensures AnswerInv(c, t)
  {
  }

  lemma TaskKeepsAnswer(c: Call, s: State, a: Action)
    requires TaskStep(c, s, a).Some? && AnswerInv(c, s)
    ensures AnswerInv(c, TaskStep(c, s, a).value) && ExitInv(c, TaskStep(c, s, a).value)
  {
  }

  lemma ResponseGrows(c: Call, s: State, value: Json, n: nat)
    requires c.Answerable(value) && s.response <= c.AnswerFrame(value) && |s.response| + n <= |c.AnswerFrame(value)|
    ensures var more := s.response + c.AnswerFrame(value)[|s.response|..|s.response| + n];
      more <= c.AnswerFrame(value) && (|more| < |c.AnswerFrame(value)| ==> more < c.AnswerFrame(value))
  {
    var frame := c.AnswerFrame(value);
    assert s.response == frame[..|s.response|];
    assert frame[..|s.response|] + frame[|s.response|..|s.response| + n] == frame[..|s.response| + n];
  }

  lemma AnswerKeepsAnswer(c: Call, s: State, a: Action)
    requires Responsive(s.worker) && AnswerStep(c, s, a).Some? && AnswerInv(c, s)
    ensures AnswerInv(c, AnswerStep(c, s, a).value) && ExitInv(c, AnswerStep(c, s, a).value)
  {
    if s.worker.Responding? && a.Respond? {
      ResponseGrows(c, s, s.worker.value, a.n);
    } else if s.worker.Responding? && a.FailRespond? {
      ResponseGrows(c, s, s.worker.value, a.moved);
    }
  }

  // ------------------------------------------------------------------ what is on record

  lemma ConnectKeepsPeer(c: Call, s: State, a: Action)
    requires ConnectStep(c, s, a).Some? && PeerInv(s)
    ensures PeerInv(ConnectStep(c, s, a).value)
  {
  }

  lemma ExchangeKeepsPeer(c: Call, s: State, a: Action)
    requires RequestInv(c, s) && ExchangeStep(c, s, a).Some? && PeerInv(s)
    ensures PeerInv(ExchangeStep(c, s, a).value)
  {
    CarryFor(c, s, a);
  }

  lemma CallerKeepsRecords(c: Call, s: State, t: State)
    requires CallerFrame(s, t) && NameInv(c, s) && HostInv(s) && ExitInv(c, s)
    ensures HostInv(t) && ExitInv(c, t)
  {
  }

  lemma AttachKeepsRecords(c: Call, s: State, a: Action)
    requires Attaching(s.worker) && AttachStep(c, s, a).Some? && WorkerChecked(c, s) && HostInv(s) && s.answer.None?
    ensures HostInv(AttachStep(c, s, a).value) && ExitInv(c, AttachStep(c, s, a).value)
  {
  }

  lemma TaskKeepsHost(s: State, t: State)
    requires TaskFrame(s, t) && WorkerFrame(s, t) && HostInv(s) && !Gone(s.worker)
    ensures HostInv(t)
  {
  }

  // ------------------------------------------------------------------ every step, every run

  lemma ConnectKeeps(c: Call, s: State, a: Action)
    requires Inv(c, s) && ConnectStep(c, s, a).Some?
    ensures Inv(c, ConnectStep(c, s, a).value)
  {
    var runs, t := Runs(s.log), ConnectStep(c, s, a).value;
    ConnectFrames(c, s, a);
    ConnectKeepsRequest(c, s, a);
    ConnectKeepsName(c, s, a);
    ConnectKeepsChecks(c, s, a);
    ConnectKeepsAnswer(c, s, t);
    ConnectKeepsPeer(c, s, a);
    CallerKeepsRest(c, s, t);
  }

  lemma ExchangeKeeps(c: Call, s: State, a: Action)
    requires Inv(c, s) && ExchangeStep(c, s, a).Some?
    ensures Inv(c, ExchangeStep(c, s, a).value)
  {
    ExchangeFrames(c, s, a);
    ExchangeKeepsRequest(c, s, a);
    ExchangeKeepsName(c, s, a);
    ExchangeKeepsChecks(c, s, a);
    ExchangeKeepsAnswer(c, s, a);
    ExchangeKeepsPeer(c, s, a);
    CallerKeepsRest(c, s, ExchangeStep(c, s, a).value);
  }

  /** What the caller's steps keep because they do not touch it. */
  lemma CallerKeepsRest(c: Call, s: State, t: State)
    requires Inv(c, s) && CallerFrame(s, t) && RequestInv(c, t)
    ensures WorkerChecked(c, t) && PayloadInv(c, t) && LoadInv(c, t) && HostInv(t) && ExitInv(c, t) && InOrder(c, t.log)
    ensures TaskInv(c, t, Runs(t.log)) && SourceInv(c, t, Runs(t.log))
  {
    CallerKeepsChecks(c, s, t);
    CallerKeepsTask(c, s, t, Runs(s.log));
    CallerKeepsRecords(c, s, t);
    RunsGrow(s.log, t.log);
    OrderGrows(c, s.log, t.log);
  }

  lemma CallerKeeps(c: Call, s: State, a: Action)
    requires Inv(c, s) && CallerStep(c, s, a).Some?
    ensures Inv(c, CallerStep(c, s, a).value)
  {
    if a.KillCaller? {
      CallerDeathKeeps(c, s);
    } else {
      if s.caller.Sending? || s.caller.Receiving? {
        ExchangeKeeps(c, s, a);
      } else {
        ConnectKeeps(c, s, a);
      }
    }
  }

  lemma AttachKeepsAll(c: Call, s: State, a: Action)
    requires Inv(c, s) && Attaching(s.worker) && AttachStep(c, s, a).Some?
    ensures Inv(c, AttachStep(c, s, a).value)
  {
    var runs, t := Runs(s.log), AttachStep(c, s, a).value;
    AttachFrames(c, s, a);
    AttachEnds(c, s, a);
    WorkerKeepsRequest(c, s, t);
    WorkerKeepsName(c, s, t);
    AttachKeeps(c, s, a);
    AttachKeepsTask(c, s, t, runs);
    AttachKeepsAnswer(c, s, t);
    AttachKeepsRecords(c, s, a);
    RunsGrow(s.log, t.log);
    OrderGrows(c, s.log, t.log);
  }

  lemma TaskKeepsAll(c: Call, s: State, a: Action)
    requires Inv(c, s) && TaskStep(c, s, a).Some?
    ensures Inv(c, TaskStep(c, s, a).value)
  {
    var runs, t := Runs(s.log), TaskStep(c, s, a).value;
    TaskFrames(c, s, a);
    WorkerKeepsRequest(c, s, t);
    WorkerKeepsName(c, s, t);
    TaskKeeps(c, s, a);
    TaskKeepsTask(c, s, a, runs);
    TaskKeepsAnswer(c, s, a);
    TaskKeepsHost(s, t);
    RunsWhenCleared(c, s, a);
    RunsGrow(s.log, t.log);
    OrderGrows(c, s.log, t.log);
  }

  lemma AnswerKeepsAll(c: Call, s: State, a: Action)
    requires Inv(c, s) && Responsive(s.worker) && AnswerStep(c, s, a).Some?
    ensures Inv(c, AnswerStep(c, s, a).value)
  {
    var t := AnswerStep(c, s, a).value;
    AnswerFrames(c, s, a);
    WorkerKeepsRequest(c, s, t);
    WorkerKeepsName(c, s, t);
    AnswerKeepsMost(c, s, t, Runs(s.log));
    AnswerKeepsAnswer(c, s, a);
  }

  /** A process that dies only closes its end. */
  lemma WorkerDeathKeeps(c: Call, s: State)
    requires Inv(c, s) && !Gone(s.worker)
    ensures Inv(c, WorkerStep(c, s, KillWorker).value)
  {
    assert Runs(s.log) != [] ==> RightTask(c, WorkerStep(c, s, KillWorker).value, Runs(s.log)[0]);
  }

  lemma CallerDeathKeeps(c: Call, s: State)
    requires Inv(c, s) && !CallerOver(s)
    ensures Inv(c, CallerStep(c, s, KillCaller).value)
  {
    assert Runs(s.log) != [] ==> RightTask(c, CallerStep(c, s, KillCaller).value, Runs(s.log)[0]);
  }

  lemma WorkerKeeps(c: Call, s: State, a: Action)
    requires Inv(c, s) && WorkerStep(c, s, a).Some?
    ensures Inv(c, WorkerStep(c, s, a).value)
  {
    if a.KillWorker? {
      WorkerDeathKeeps(c, s);
    } else {
      if Attaching(s.worker) {
        AttachKeepsAll(c, s, a);
      } else if Responsive(s.worker) {
        AnswerKeepsAll(c, s, a);
      } else {
        TaskKeepsAll(c, s, a);
      }
    }
  }

  lemma CallerFrames(c: Call, s: State, a: Action)
    requires Inv(c, s) && CallerStep(c, s, a).Some?
    ensures CallerFrame(s, CallerStep(c, s, a).value)
  {
    if !a.KillCaller? {
      if s.caller.Sending? || s.caller.Receiving? {
        ExchangeFrames(c, s, a);
      } else {
        ConnectFrames(c, s, a);
      }
    }
  }

  lemma WorkerFrames(c: Call, s: State, a: Action)
    requires WorkerStep(c, s, a).Some?
    ensures WorkerFrame(s, WorkerStep(c, s, a).value)
  {
    if !a.KillWorker? {
      if Attaching(s.worker) {
        AttachFrames(c, s, a);
      } else if Responsive(s.worker) {
        AnswerFrames(c, s, a);
      } else {
        TaskFrames(c, s, a);
      }
    }
  }

  lemma StepKeeps(c: Call, s: State, a: Action)
    requires Inv(c, s) && Step(c, s, a).Some?
    ensures Inv(c, Step(c, s, a).value)
  {
    if CallerActs(a) {
      CallerKeeps(c, s, a);
    } else {
      WorkerKeeps(c, s, a);
    }
  }

  lemma LeadsKeeps(c: Call, s: State, t: State)
    requires Inv(c, s) && Leads(c, s, t)
    ensures Inv(c, t)
  {
    var actions: seq<Action> :| Run(Stepper(c), s, actions) == Some(t);
    forall x: State, a: Action | Inv(c, x) && Stepper(c)(x, a).Some? ensures Inv(c, Stepper(c)(x, a).value) {
      StepKeeps(c, x, a);
    }
    RunKeeps(Stepper(c), x => Inv(c, x), s, actions);
  }

  /** Every state of every run, whatever the interleaving, the transfers and the failures. */
  lemma ReachableInv(c: Call, s: State)
    requires Reachable(c, s)
    ensures Inv(c, s)
  {
    LeadsKeeps(c, START, s);
  }
}
