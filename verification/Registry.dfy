/** The worker's table of named tasks. */
module Registry {
  import opened Wrappers

  /** The identity of a callback. */
  type Callback = nat

  /** A call of RegisterTask; None is an empty callback. */
  datatype Registration = Registration(name: string, task: Option<Callback>)

  predicate Registers(r: Registration, name: string) {
    name != "" && r.name == name && r.task.Some?
  }

  /** What counts for a name: the last registration under it that is not ignored. */
  ghost predicate IsLast(history: seq<Registration>, name: string, i: nat) {
    i < |history| && Registers(history[i], name) && forall j | i < j < |history| :: !Registers(history[j], name)
  }

  function TasksAfter(history: seq<Registration>): map<string, Callback> {
    if history == [] then map[]
    else
      var tasks := TasksAfter(history[..|history| - 1]);
      var r := history[|history| - 1];
      if r.name == "" || r.task.None? then tasks else tasks[r.name := r.task.value]
  }

  function Lookup(history: seq<Registration>, name: string): Option<Callback> {
    var tasks := TasksAfter(history);
    if name in tasks then Some(tasks[name]) else None
  }

  lemma {:induction false} LookupIsLast(history: seq<Registration>, name: string)
    ensures Lookup(history, name).Some? <==> exists i: nat :: IsLast(history, name, i)
    ensures forall i: nat | IsLast(history, name, i) :: Lookup(history, name) == history[i].task
  {
    if history != [] {
      var n := |history| - 1;
      var front := history[..n];
      LookupIsLast(front, name);
      if Registers(history[n], name) {
        assert IsLast(history, name, n);
      } else {
        assert forall i: nat :: IsLast(front, name, i) <==> IsLast(history, name, i);
      }
    }
  }

  class TaskRegistry {
    var tasks: map<string, Callback>
    ghost var history: seq<Registration>

    ghost predicate Valid()
      reads this
    {
      tasks == TasksAfter(history)
    }

    constructor ()
      ensures Valid() && history == []
    {
      tasks, history := map[], [];
    }

    method RegisterTask(name: string, task: Option<Callback>)
      requires Valid()
      modifies this
      ensures Valid() && history == old(history) + [Registration(name, task)]
    {
      history := history + [Registration(name, task)];
      assert history[..|history| - 1] == old(history);
      if name == "" || task.None? {
        return;
      }
      tasks := tasks[name := task.value];
    }

    /** The callback RunTask invokes; None means it answers `false` without running any. */
    method RunTask(name: string) returns (task: Option<Callback>)
      requires Valid()
      ensures task.Some? <==> exists i: nat :: IsLast(history, name, i)
      ensures forall i: nat | IsLast(history, name, i) :: task == history[i].task
    {
      LookupIsLast(history, name);
      if name in tasks {
        return Some(tasks[name]);
      }
      return None;
    }
  }
}
