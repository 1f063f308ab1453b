/** The two ways Windows starts the worker, seen through the argument list the worker's own
    runtime ends up with. */
module Launch {
  import opened Wrappers
  import opened CommandLine

  const PIPE_ARGUMENT := "--elevate-pipe="
  const INSTALL_ARGUMENT := "--elevate-install"
  const ARG0 := "$(Arg0)"
  /** The argument template of the registered task: `--elevate-pipe=$(Arg0)`. */
  const TASK_ARGUMENTS := PIPE_ARGUMENT + ARG0

  /** What LaunchElevatedService asks the system for. */
  datatype Request = Refused | Scheduled(arg0: string) | Elevated(parameters: string)

  /** The argument list CallTask builds. */
  function CallArguments(sessionId: string, configured: bool): seq<string> {
    [PIPE_ARGUMENT + sessionId] + if configured then [] else [INSTALL_ARGUMENT]
  }

  /** The first argument carrying a pipe id decides; the others are not looked at. */
  ghost predicate FirstPipeArgument(arguments: seq<string>, i: nat) {
    && i < |arguments|
    && PIPE_ARGUMENT <= arguments[i]
    && forall j | 0 <= j < i :: !(PIPE_ARGUMENT <= arguments[j])
  }

  /** No installation flag selects the scheduler, which needs a non-empty id. */
  ghost predicate RequestFor(arguments: seq<string>, request: Request) {
    match request
    case Elevated(parameters) =>
      INSTALL_ARGUMENT in arguments && parameters == Text(arguments, true)
    case Scheduled(arg0) =>
      && INSTALL_ARGUMENT !in arguments
      && arg0 != ""
      && exists i: nat :: FirstPipeArgument(arguments, i) && arguments[i] == PIPE_ARGUMENT + arg0
    case Refused =>
      && INSTALL_ARGUMENT !in arguments
      && forall i: nat | FirstPipeArgument(arguments, i) :: arguments[i] == PIPE_ARGUMENT
  }

  method LaunchElevatedService(arguments: seq<string>) returns (request: Request)
    ensures RequestFor(arguments, request)
  {
    var useTaskScheduler := true;
    for i := 0 to |arguments|
      invariant useTaskScheduler
      invariant INSTALL_ARGUMENT !in arguments[..i]
    {
      if arguments[i] == INSTALL_ARGUMENT {
        useTaskScheduler := false;
        break;
      }
    }
    if useTaskScheduler {
      var pipeId: Option<string> := None;
      for i := 0 to |arguments|
        invariant pipeId.None?
        invariant forall j | 0 <= j < i :: !(PIPE_ARGUMENT <= arguments[j])
      {
        if PIPE_ARGUMENT <= arguments[i] {
          pipeId := Some(arguments[i][|PIPE_ARGUMENT|..]);
          assert FirstPipeArgument(arguments, i);
          assert arguments[i] == PIPE_ARGUMENT + pipeId.value;
          break;
        }
      }
      if pipeId.None? || pipeId.value == "" {
        return Refused;
      }
      return Scheduled(pipeId.value);
    }
    var workerArguments := WorkerCommandLine(arguments);
    return Elevated(workerArguments);
  }

  /** The scheduler replaces each `$(Arg0)` of the template by the run argument. */
  function Substitute(template: string, arg0: string): string
    decreases |template|
  {
    if template == "" then ""
    else if ARG0 <= template then arg0 + Substitute(template[|ARG0|..], arg0)
    else [template[0]] + Substitute(template[1..], arg0)
  }

  /** The worker's arguments after the program name. Both run arguments and parameters are
      handed over as NUL-terminated text. */
  function Received(request: Request): seq<string> {
    match request
    case Refused => []
    case Scheduled(arg0) => Parse(Substitute(TASK_ARGUMENTS, CStr(arg0)))
    case Elevated(parameters) => Parse(CStr(parameters))
  }

  lemma {:induction false} SubstituteAfter(prefix: string, template: string, arg0: string)
    requires '$' !in prefix
    ensures Substitute(prefix + template, arg0) == prefix + Substitute(template, arg0)
  {
    if prefix == "" {
      assert prefix + template == template;
    } else {
      SubstituteAfter(prefix[1..], template, arg0);
      assert (prefix + template)[0] != ARG0[0];
      assert (prefix + template)[1..] == prefix[1..] + template;
    }
  }

  lemma SubstituteTemplate(arg0: string)
    ensures Substitute(TASK_ARGUMENTS, arg0) == PIPE_ARGUMENT + arg0
  {
    SubstituteAfter(PIPE_ARGUMENT, ARG0, arg0);
    SubstituteArg0(arg0);
  }

  lemma SubstituteArg0(arg0: string)
    ensures Substitute(ARG0, arg0) == arg0
  {
    assert ARG0[|ARG0|..] == "";
    assert arg0 + "" == arg0;
  }

  // ------------------------------------------------ which texts survive without quoting

  predicate Bare(s: string) {
    forall c <- s :: c != '"' && !IsSpace(c)
  }

  lemma {:induction false} ScanBare(s: string)
    requires Bare(s)
    ensures ScanArgument(s, false) == (s, "")
    decreases |s|
  {
    var n := LeadingBackslashes(s);
    if s[n..] == "" {
      assert s[..n] == s;
    } else {
      ScanBare(s[n..][1..]);
      assert s == s[..n] + [s[n]] + s[n..][1..];
    }
  }

  /** Reading never lengthens, and keeps every character only of a text with no quote and
      (outside quotes) no white space. */
  lemma {:induction false} ScanKeeps(s: string, inQuotes: bool)
    ensures var r := ScanArgument(s, inQuotes); |r.0| + |r.1| <= |s|
    ensures |ScanArgument(s, inQuotes).0| == |s| ==> '"' !in s && (!inQuotes ==> Bare(s))
    decreases |s|, 1
  {
    var n := LeadingBackslashes(s);
    assert s == Backslashes(n) + s[n..];
    ScanAfterKeeps(n, s[n..], inQuotes);
  }

  lemma {:induction false} ScanAfterKeeps(n: nat, t: string, inQuotes: bool)
    requires t != "" ==> t[0] != '\\'
    ensures var r := ScanAfter(n, t, inQuotes); |r.0| + |r.1| <= n + |t|
    ensures |ScanAfter(n, t, inQuotes).0| == n + |t| ==> '"' !in t && (!inQuotes ==> Bare(t))
    decreases |t|, 0
  {
    if t == "" {
    } else if t[0] == '"' {
      if n % 2 == 1 {
        ScanKeeps(t[1..], inQuotes);
      } else if inQuotes && |t| > 1 && t[1] == '"' {
        ScanKeeps(t[2..], inQuotes);
      } else {
        ScanKeeps(t[1..], !inQuotes);
      }
    } else if inQuotes || !IsSpace(t[0]) {
      ScanKeeps(t[1..], inQuotes);
      assert t == [t[0]] + t[1..];
    }
  }

  lemma ParseUnquotedExactly(s: string)
    requires s != "" && !IsSpace(s[0])
    ensures Parse(s) == [s] <==> Bare(s)
  {
    var r := ScanArgument(s, false);
    assert Parse(s) == [r.0] + Parse(r.1);
    if Bare(s) {
      ScanBare(s);
    } else {
      ScanKeeps(s, false);
      assert r.0 != s;
    }
  }

  /** Session ids the scheduler route can carry. */
  predicate Deliverable(sessionId: string) {
    sessionId != "" && '\0' !in sessionId && Bare(sessionId)
  }

  lemma ScheduledDelivers(sessionId: string)
    ensures Received(Scheduled(sessionId)) == [PIPE_ARGUMENT + sessionId]
       <==> '\0' !in sessionId && Bare(sessionId)
  {
    var seen := CStr(sessionId);
    SubstituteTemplate(seen);
    if '\0' in sessionId {
      NulIsLost(seen, sessionId);
    } else {
      PrefixedParse(seen);
    }
  }

  lemma NulIsLost(seen: string, id: string)
    requires '\0' !in seen && '\0' in id
    ensures Parse(PIPE_ARGUMENT + seen) != [PIPE_ARGUMENT + id]
  {
    ParseNoNul(PIPE_ARGUMENT + seen);
    assert PIPE_ARGUMENT + id in [PIPE_ARGUMENT + id];
    assert '\0' in PIPE_ARGUMENT + id;
  }

  lemma PrefixedParse(id: string)
    ensures Parse(PIPE_ARGUMENT + id) == [PIPE_ARGUMENT + id] <==> Bare(id)
  {
    var line := PIPE_ARGUMENT + id;
    ParseUnquotedExactly(line);
    assert Bare(PIPE_ARGUMENT);
    forall c <- id ensures c in line {}
  }

  lemma FirstIsPipe(sessionId: string, configured: bool)
    ensures FirstPipeArgument(CallArguments(sessionId, configured), 0)
    ensures INSTALL_ARGUMENT in CallArguments(sessionId, configured) <==> !configured
  {
    var arguments := CallArguments(sessionId, configured);
    assert arguments[0][10] == 'p' && INSTALL_ARGUMENT[10] == 'i';
    assert !configured ==> arguments[1] == INSTALL_ARGUMENT;
  }

  /** The scheduler is used exactly when silent elevation is configured; it then delivers the
      caller's arguments exactly for the ids above. Otherwise the command line goes through the
      elevation prompt and delivers them exactly for ids without a NUL. */
  lemma RoutesDeliver(sessionId: string, configured: bool, request: Request)
    requires RequestFor(CallArguments(sessionId, configured), request)
    ensures request.Elevated? <==> !configured
    ensures Received(request) == CallArguments(sessionId, configured)
       <==> if configured then Deliverable(sessionId) else '\0' !in sessionId
  {
    var arguments := CallArguments(sessionId, configured);
    FirstIsPipe(sessionId, configured);
    if !configured {
      RoundTripExactly(arguments);
      PromptedNul(sessionId);
    } else if request.Scheduled? {
      var i: nat :| FirstPipeArgument(arguments, i) && arguments[i] == PIPE_ARGUMENT + request.arg0;
      assert sessionId == (PIPE_ARGUMENT + sessionId)[|PIPE_ARGUMENT|..] == request.arg0;
      ScheduledDelivers(sessionId);
    } else {
      assert sessionId == (PIPE_ARGUMENT + sessionId)[|PIPE_ARGUMENT|..] == "";
    }
  }

  lemma PromptedNul(sessionId: string)
    ensures NoNul(CallArguments(sessionId, false)) <==> '\0' !in sessionId
  {
    var arguments := CallArguments(sessionId, false);
    assert arguments[0] in arguments;
    forall c <- sessionId ensures c in arguments[0] {}
  }

  /** A UUID in the text form of section 4 of RFC 9562. */
  predicate IsUuid(s: string) {
    && |s| == 36
    && forall i | 0 <= i < 36 ::
         if i in {8, 13, 18, 23} then s[i] == '-'
         else '0' <= s[i] <= '9' || 'a' <= s[i] <= 'f' || 'A' <= s[i] <= 'F'
  }

  lemma UuidDeliverable(sessionId: string)
    requires IsUuid(sessionId)
    ensures Deliverable(sessionId)
  {
    forall c <- sessionId ensures c != '"' && !IsSpace(c) && c != '\0' {
      var i :| 0 <= i < |sessionId| && sessionId[i] == c;
    }
  }

  /** The two halves together, for the ids CallTask really uses. */
  method LaunchForSession(sessionId: string, configured: bool) returns (request: Request)
    requires IsUuid(sessionId)
    ensures request.Elevated? <==> !configured
    ensures Received(request) == CallArguments(sessionId, configured)
  {
    request := LaunchElevatedService(CallArguments(sessionId, configured));
    RoutesDeliver(sessionId, configured, request);
    UuidDeliverable(sessionId);
  }
}
