/** The two files that configuring and revoking silent elevation leave on Linux. */
module Polkit {
  type Files = map<string, string>

  function ActionName(applicationId: string): string {
    "com." + applicationId + ".elevatekit"
  }

  function ActionPath(action: string): string {
    "/usr/share/polkit-1/actions/" + action + ".policy"
  }

  function RulePath(action: string): string {
    "/etc/polkit-1/rules.d/49-" + action + ".rules"
  }

  function PolicyFile(id: string): (path: string)
    ensures path == "/usr/share/polkit-1/actions/com." + id + ".elevatekit.policy"
  {
    ActionPath(ActionName(id))
  }

  function RuleFile(id: string): (path: string)
    ensures path == "/etc/polkit-1/rules.d/49-com." + id + ".elevatekit.rules"
  {
    RulePath(ActionName(id))
  }

  /** The texts rendered from the two templates. */
  datatype Templates = Templates(policy: (string, string) -> string, rule: string -> string)

  /** How a write goes: the file is not opened; or opened and written in part, which is
      noticed; or written as a whole; or, its buffer lost on closing, in part and unnoticed. */
  datatype Write = NotOpened | Cut(kept: nat) | Whole | Lost(kept: nat)

  datatype Removal = Removed | Denied

  /** One call, with what the system does in it. */
  datatype Call =
    | Configure(id: string, host: string, checked: bool, policy: Write, rule: Write)
    | Revoke(id: string, policyRemoval: Removal, ruleRemoval: Removal)

  function Kept(contents: string, kept: nat): string {
    if kept < |contents| then contents[..kept] else contents
  }

  function Written(files: Files, path: string, contents: string, w: Write): Files {
    match w
    case NotOpened => files
    case Cut(kept) => files[path := Kept(contents, kept)]
    case Whole => files[path := contents]
    case Lost(kept) => files[path := Kept(contents, kept)]
  }

  predicate Reported(w: Write) {
    w.Whole? || w.Lost?
  }

  function After(t: Templates, files: Files, call: Call): Files {
    match call
    case Configure(id, host, checked, policy, rule) =>
      if !checked then files
      else
        var files' := Written(files, PolicyFile(id), t.policy(ActionName(id), host), policy);
        if Reported(policy) then Written(files', RuleFile(id), t.rule(ActionName(id)), rule) else files'
    case Revoke(id, policy, rule) =>
      var files' := if policy.Removed? then files - {PolicyFile(id)} else files;
      if rule.Removed? then files' - {RuleFile(id)} else files'
  }

  predicate SameAt(path: string, f: Files, g: Files) {
    (path in f <==> path in g) && (path in f ==> f[path] == g[path])
  }

  /** Both files are there with the texts rendered for this id and host. */
  predicate Rendered(t: Templates, files: Files, id: string, host: string) {
    && PolicyFile(id) in files && files[PolicyFile(id)] == t.policy(ActionName(id), host)
    && RuleFile(id) in files && files[RuleFile(id)] == t.rule(ActionName(id))
  }

  predicate Flushed(w: Write, contents: string) {
    w.Lost? ==> w.kept >= |contents|
  }

  /** What one write leaves of a file. */
  predicate Leaves(w: Write, contents: string, path: string, before: Files, after: Files) {
    match w
    case NotOpened => SameAt(path, before, after)
    case Whole => path in after && after[path] == contents
    case Cut(kept) => path in after && after[path] == Kept(contents, kept)
    case Lost(kept) => path in after && after[path] == Kept(contents, kept)
  }

  /** What a call does to the two files of its id, file by file and failures included. */
  predicate Decided(t: Templates, call: Call, before: Files, after: Files) {
    match call
    case Configure(id, host, checked, policy, rule) =>
      if !checked then SameAt(PolicyFile(id), before, after) && SameAt(RuleFile(id), before, after)
      else
        && Leaves(policy, t.policy(ActionName(id), host), PolicyFile(id), before, after)
        && if Reported(policy) then Leaves(rule, t.rule(ActionName(id)), RuleFile(id), before, after)
           else SameAt(RuleFile(id), before, after)
    case Revoke(id, policy, rule) =>
      && (if policy.Removed? then PolicyFile(id) !in after else SameAt(PolicyFile(id), before, after))
      && (if rule.Removed? then RuleFile(id) !in after else SameAt(RuleFile(id), before, after))
  }

  /** The configuration of this machine, changed file by file. */
  class Host {
    var files: Files

    constructor (files: Files)
      ensures this.files == files
    {
      this.files := files;
    }

    method WriteFile(path: string, contents: string, w: Write) returns (ok: bool)
      modifies this
      ensures files == Written(old(files), path, contents, w) && ok == Reported(w)
    {
      if w.NotOpened? {
        return false;
      }
      files := files[path := ""];
      if w.Whole? {
        files := files[path := contents];
      } else {
        files := files[path := Kept(contents, w.kept)];
      }
      return !w.Cut?;
    }

    /** A file that is not there counts as removed. */
    method RemoveFile(path: string, r: Removal) returns (ok: bool)
      modifies this
      ensures files == (if r.Removed? then old(files) - {path} else old(files)) && ok == r.Removed?
    {
      if r.Denied? {
        return false;
      }
      files := files - {path};
      return true;
    }

    method ConfigureSilentElevation(t: Templates, id: string, host: string, checked: bool, policy: Write, rule: Write)
      returns (ok: bool)
      modifies this
      ensures files == After(t, old(files), Configure(id, host, checked, policy, rule))
      ensures ok == (checked && Reported(policy) && Reported(rule))
      // An executable that is refused leaves everything as it was, as does a policy file that
      // cannot be opened; without a written policy there is no new rule.
      ensures !checked || policy.NotOpened? ==> files == old(files)
      ensures !Reported(policy) ==> SameAt(RuleFile(id), old(files), files)
      ensures Decided(t, Configure(id, host, checked, policy, rule), old(files), files)
      // Success leaves both files, with their texts exactly if no buffer was lost.
      ensures ok ==> PolicyFile(id) in files && RuleFile(id) in files
      ensures ok ==> (Rendered(t, files, id, host) <==>
        Flushed(policy, t.policy(ActionName(id), host)) && Flushed(rule, t.rule(ActionName(id))))
      ensures forall path | path != PolicyFile(id) && path != RuleFile(id) :: SameAt(path, old(files), files)
    {
      NamesApart(id, id);
      if !checked {
        return false;
      }
      var action := ActionName(id);
      ok := WriteFile(ActionPath(action), t.policy(action, host), policy);
      if !ok {
        return;
      }
      ok := WriteFile(RulePath(action), t.rule(action), rule);
    }

    method RevokeSilentElevation(t: Templates, id: string, policy: Removal, rule: Removal) returns (ok: bool)
      modifies this
      ensures files == After(t, old(files), Revoke(id, policy, rule))
      ensures ok == (policy.Removed? && rule.Removed?)
      // Each file goes or stays on its own, whichever removal fails.
      ensures policy.Removed? ==> PolicyFile(id) !in files
      ensures policy.Denied? ==> SameAt(PolicyFile(id), old(files), files)
      ensures rule.Removed? ==> RuleFile(id) !in files
      ensures rule.Denied? ==> SameAt(RuleFile(id), old(files), files)
      // Success leaves nothing of this id, whatever was there before.
      ensures ok ==> PolicyFile(id) !in files && RuleFile(id) !in files
      ensures forall path | path != PolicyFile(id) && path != RuleFile(id) :: SameAt(path, old(files), files)
    {
      NamesApart(id, id);
      var action := ActionName(id);
      var policyRemoved := RemoveFile(ActionPath(action), policy);
      var ruleRemoved := RemoveFile(RulePath(action), rule);
      return policyRemoved && ruleRemoved;
    }
  }

  // ------------------------------------------------------------------ the names

  lemma NamesApart(a: string, b: string)
    ensures PolicyFile(a) != RuleFile(b)
    ensures a != b ==> PolicyFile(a) != PolicyFile(b) && RuleFile(a) != RuleFile(b)
  {
    assert PolicyFile(a)[1] == 'u' && RuleFile(b)[1] == 'e';
    if PolicyFile(a) == PolicyFile(b) {
      Unwrap("/usr/share/polkit-1/actions/", ActionName(a), ActionName(b), ".policy");
    }
    if RuleFile(a) == RuleFile(b) {
      Unwrap("/etc/polkit-1/rules.d/49-", ActionName(a), ActionName(b), ".rules");
    }
    if ActionName(a) == ActionName(b) {
      Unwrap("com.", a, b, ".elevatekit");
    }
  }

  lemma Unwrap(before: string, a: string, b: string, after: string)
    requires before + a + after == before + b + after
    ensures a == b
  {
    assert |a| == |b|;
    assert (before + a + after)[|before|..|before| + |a|] == a;
    assert (before + b + after)[|before|..|before| + |b|] == b;
  }

  // ------------------------------------------------------------------ histories

  function AfterAll(t: Templates, files: Files, calls: seq<Call>): Files {
    if calls == [] then files
    else After(t, AfterAll(t, files, calls[..|calls| - 1]), calls[|calls| - 1])
  }

  function CallsFor(id: string, calls: seq<Call>): seq<Call> {
    if calls == [] then []
    else CallsFor(id, calls[..|calls| - 1]) + if calls[|calls| - 1].id == id then [calls[|calls| - 1]] else []
  }

  /** The same two files, present or absent alike and with the same text. */
  predicate SameFor(id: string, f: Files, g: Files) {
    SameAt(PolicyFile(id), f, g) && SameAt(RuleFile(id), f, g)
  }

  lemma AfterOther(t: Templates, id: string, f: Files, call: Call)
    requires call.id != id
    ensures SameFor(id, After(t, f, call), f)
  {
    NamesApart(id, call.id);
    NamesApart(call.id, id);
  }

  lemma WrittenSame(path: string, f: Files, g: Files, written: string, contents: string, w: Write)
    requires SameAt(path, f, g)
    ensures SameAt(path, Written(f, written, contents, w), Written(g, written, contents, w))
  {
  }

  lemma AfterOwn(t: Templates, path: string, f: Files, g: Files, call: Call)
    requires SameAt(path, f, g)
    ensures SameAt(path, After(t, f, call), After(t, g, call))
  {
    if call.Configure? && call.checked {
      var policy, rule := t.policy(ActionName(call.id), call.host), t.rule(ActionName(call.id));
      WrittenSame(path, f, g, PolicyFile(call.id), policy, call.policy);
      var f', g' := Written(f, PolicyFile(call.id), policy, call.policy), Written(g, PolicyFile(call.id), policy, call.policy);
      WrittenSame(path, f', g', RuleFile(call.id), rule, call.rule);
    }
  }

  /** Whatever the history of calls and failures, the files of an application id are what
      the calls for that id alone would have left. */
  lemma {:induction false} OnlyOwnCallsMatter(t: Templates, files: Files, calls: seq<Call>, id: string)
    ensures SameFor(id, AfterAll(t, files, calls), AfterAll(t, files, CallsFor(id, calls)))
    decreases |calls|
  {
    if calls != [] {
      var front, last := calls[..|calls| - 1], calls[|calls| - 1];
      var own := CallsFor(id, front);
      OnlyOwnCallsMatter(t, files, front, id);
      var f, g := AfterAll(t, files, front), AfterAll(t, files, own);
      if last.id == id {
        AfterOwn(t, PolicyFile(id), f, g, last);
        AfterOwn(t, RuleFile(id), f, g, last);
      } else {
        AfterOther(t, id, f, last);
      }
      assert (own + [last])[..|own|] == own && own + [] == own;
    }
  }

  predicate Succeeded(call: Call) {
    match call
    case Configure(_, _, checked, policy, rule) => checked && Reported(policy) && Reported(rule)
    case Revoke(_, policy, rule) => policy.Removed? && rule.Removed?
  }

  lemma CallDecides(t: Templates, files: Files, call: Call)
    ensures Decided(t, call, files, After(t, files, call))
  {
    NamesApart(call.id, call.id);
  }

  lemma SameDecided(t: Templates, call: Call, before: Files, f: Files, g: Files)
    requires SameFor(call.id, f, g)
    ensures Decided(t, call, before, f) <==> Decided(t, call, before, g)
  {
  }

  lemma DecidedBySuccess(t: Templates, call: Call, before: Files, after: Files)
    requires Decided(t, call, before, after) && Succeeded(call)
    ensures LeftBySuccess(t, call, after)
  {
    NamesApart(call.id, call.id);
  }

  /** Nothing after revoking; both files after configuring, with their texts exactly if no buffer
      was lost with part of its text. */
  predicate LeftBySuccess(t: Templates, call: Call, after: Files) {
    match call
    case Revoke(id, _, _) => PolicyFile(id) !in after && RuleFile(id) !in after
    case Configure(id, host, _, policy, rule) =>
      && PolicyFile(id) in after && RuleFile(id) in after
      && (Rendered(t, after, id, host) <==>
            Flushed(policy, t.policy(ActionName(id), host)) && Flushed(rule, t.rule(ActionName(id))))
  }

  /** Whatever was called for other ids, before and since, an id's last call decides what is there,
      over what its own earlier calls had left. */
  lemma LastCallDecides(t: Templates, files: Files, calls: seq<Call>, id: string)
    requires CallsFor(id, calls) != []
    ensures var own, after := CallsFor(id, calls), AfterAll(t, files, calls);
      var last := own[|own| - 1];
      && last.id == id
      && Decided(t, last, AfterAll(t, files, own[..|own| - 1]), after)
      && (Succeeded(last) ==> LeftBySuccess(t, last, after))
  {
    var own := CallsFor(id, calls);
    var last, before := own[|own| - 1], AfterAll(t, files, own[..|own| - 1]);
    OwnCalls(id, calls);
    CallDecides(t, before, last);
    OnlyOwnCallsMatter(t, files, calls, id);
    SameDecided(t, last, before, AfterAll(t, files, calls), AfterAll(t, files, own));
    if Succeeded(last) {
      DecidedBySuccess(t, last, before, AfterAll(t, files, calls));
    }
  }

  lemma {:induction false} OwnCalls(id: string, calls: seq<Call>)
    ensures forall call <- CallsFor(id, calls) :: call.id == id
    decreases |calls|
  {
    if calls != [] {
      OwnCalls(id, calls[..|calls| - 1]);
    }
  }
}
