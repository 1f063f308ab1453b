/** The file system name of a session's socket on Linux. */
module PipePath {
  import opened Wrappers
  import opened CommandLine
  import opened Launch

  const PREFIX := "/tmp/"
  const INFIX := "-elevatekit-"
  const SUFFIX := ".sock"
  /** Room in a socket address, terminator included. */
  const SUN_PATH: nat := 108

  function GetPipePath(applicationId: string, sessionId: string): (path: string)
    ensures |path| == |applicationId| + |sessionId| + 22
  {
    PREFIX + applicationId + INFIX + sessionId + SUFFIX
  }

  /** Ids of one length never share a name, whatever they contain. */
  lemma Injective(a: string, s: string, b: string, t: string)
    requires |s| == |t| && GetPipePath(a, s) == GetPipePath(b, t)
    ensures a == b && s == t
  {
    var path := GetPipePath(a, s);
    assert |a| == |b|;
    assert path[5..5 + |a|] == a && path[5..5 + |b|] == b;
    assert path[17 + |a|..17 + |a| + |s|] == s && path[17 + |b|..17 + |b| + |t|] == t;
  }

  /** Ids without a `t`, as those of hexadecimal digits and dashes are, never share a name
      either, of whatever lengths: the last `t` of a name is then always the infix's. */
  lemma ApartWithoutT(a: string, s: string, b: string, t: string)
    requires 't' !in s && 't' !in t && GetPipePath(a, s) == GetPipePath(b, t)
    ensures a == b && s == t
  {
    if |s| < |t| {
      LastT(a, s, b, t);
    } else if |t| < |s| {
      LastT(b, t, a, s);
    } else {
      Injective(a, s, b, t);
    }
  }

  lemma LastT(a: string, s: string, b: string, t: string)
    requires GetPipePath(a, s) == GetPipePath(b, t) && |s| < |t|
    ensures 't' in t
  {
    var path, i := GetPipePath(a, s), |a| + |PREFIX| + 10;
    assert path[i] == INFIX[10] == 't';
    assert GetPipePath(b, t)[|b| + |PREFIX| + 11] == INFIX[11] == '-';
    assert i >= |b| + |PREFIX| + |INFIX|;
    assert GetPipePath(b, t)[i] == t[i - |b| - |PREFIX| - |INFIX|];
  }

  lemma UuidWithoutT(s: string)
    requires IsUuid(s)
    ensures 't' !in s
  {
    forall c <- s ensures c != 't' {
      var i :| 0 <= i < |s| && s[i] == c;
    }
  }

  /** For ids of any text, the exact condition on one pair: it shares its name with another pair
      exactly when the infix can be read at another place of what stands between `/tmp/` and
      `.sock`. */
  lemma SharedExactly(a: string, s: string)
    ensures (exists b, t :: (b != a || t != s) && GetPipePath(b, t) == GetPipePath(a, s))
       <==> (exists i: nat :: i != |a| && InfixAt(a + INFIX + s, i))
  {
    if b, t :| (b != a || t != s) && GetPipePath(b, t) == GetPipePath(a, s) {
      OtherPlace(a, s, b, t);
      assert InfixAt(a + INFIX + s, |b|);
    }
    if i: nat :| i != |a| && InfixAt(a + INFIX + s, i) {
      var b, t := OtherPair(a, s, i);
    }
  }

  lemma OtherPlace(a: string, s: string, b: string, t: string)
    requires (b != a || t != s) && GetPipePath(b, t) == GetPipePath(a, s)
    ensures |b| != |a| && InfixAt(a + INFIX + s, |b|)
  {
    Middle(a, s);
    Middle(b, t);
    if |b| == |a| {
      Injective(a, s, b, t);
    }
  }

  lemma OtherPair(a: string, s: string, i: nat) returns (b: string, t: string)
    requires i != |a| && InfixAt(a + INFIX + s, i)
    ensures |b| == i && GetPipePath(b, t) == GetPipePath(a, s)
  {
    var middle := a + INFIX + s;
    b, t := middle[..i], middle[i + |INFIX|..];
    assert b + INFIX + t == middle;
    Middle(a, s);
    Middle(b, t);
  }

  predicate InfixAt(text: string, i: nat) {
    i + |INFIX| <= |text| && text[i..i + |INFIX|] == INFIX
  }

  lemma Middle(a: string, s: string)
    ensures GetPipePath(a, s) == PREFIX + (a + INFIX + s) + SUFFIX
    ensures GetPipePath(a, s)[|PREFIX|..|GetPipePath(a, s)| - |SUFFIX|] == a + INFIX + s
  {
  }

  /** What Create and Open make of a path: no address, or the text in it, as a C string. */
  predicate HasAddress(path: string) {
    |path| < SUN_PATH
  }

  function Address(path: string): string {
    CStr(path[..if |path| < SUN_PATH then |path| else SUN_PATH - 1])
  }

  /** With session ids of 36 characters both ends get an address exactly for application ids
      of at most 49 characters, and it is then the whole path. */
  lemma AddressIsWhole(applicationId: string, sessionId: string)
    requires |sessionId| == 36
    ensures HasAddress(GetPipePath(applicationId, sessionId)) <==> |applicationId| <= 49
    ensures |applicationId| <= 49 && '\0' !in applicationId && '\0' !in sessionId ==>
      Address(GetPipePath(applicationId, sessionId)) == GetPipePath(applicationId, sessionId)
  {
    var path := GetPipePath(applicationId, sessionId);
    assert path[..|path|] == path;
  }

  // ------------------------------------------------------------------ the name's life

  /** The socket names in the file system, as C strings. Removing a name that exists succeeds. */
  class Names {
    var present: set<string>

    constructor ()
      ensures present == {}
    {
      present := {};
    }

    /** The caller's end, given by the name its socket is bound to: it is created exactly if every
        call succeeds and the name has room in an address, and then, whatever was there
        before, the name exists; otherwise it does not. */
    method Create(applicationId: string, sessionId: string, handle: bool, binds: bool, listens: bool)
      returns (bound: Option<string>)
      modifies this
      ensures bound.Some? <==> handle && binds && listens && |GetPipePath(applicationId, sessionId)| < 108
      ensures var name := CStr(GetPipePath(applicationId, sessionId));
        && present == (if bound.Some? then old(present) + {name} else old(present) - {name})
        && (bound.Some? ==> bound.value == name)
    {
      var path := GetPipePath(applicationId, sessionId);
      var name := CStr(path);
      assert |path| < SUN_PATH ==> Address(path) == name by {
        assert path[..|path|] == path;
      }
      present := present - {name};
      if !handle {
        return None;
      }
      if |path| >= SUN_PATH {
        return None;
      }
      if !binds {
        return None;
      }
      present := present + {Address(path)};
      if !listens {
        present := present - {name};
        return None;
      }
      return Some(Address(path));
    }

    /** The worker's end is connected exactly if the calls succeed, the name exists and has room in
        an address; it then removes the name. */
    method Open(applicationId: string, sessionId: string, handle: bool, connects: bool) returns (ok: bool)
      modifies this
      ensures var name := CStr(GetPipePath(applicationId, sessionId));
        && (ok <==> handle && connects && name in old(present) && |GetPipePath(applicationId, sessionId)| < 108)
        && present == if ok then old(present) - {name} else old(present)
    {
      var path := GetPipePath(applicationId, sessionId);
      if !handle || |path| >= SUN_PATH {
        return false;
      }
      assert path[..|path|] == path;
      if !connects || Address(path) !in present {
        return false;
      }
      present := present - {CStr(path)};
      return true;
    }

    /** The destructor removes the name its descriptor is bound to. A descriptor got by accepting
        is bound to the listener's name, one got by connecting to none; Session carries this
        through all runs. */
    method Destroy(bound: Option<string>)
      modifies this
      ensures present == if bound.Some? && bound.value != "" then old(present) - {bound.value} else old(present)
    {
      if bound.Some? && bound.value != "" {
        present := present - {bound.value};
      }
    }

    /** A caller's end from creation to destruction, with or without a worker that opens the
        pipe in between: it takes its own name away again and no other. */
    method Session(applicationId: string, sessionId: string)
      modifies this
      ensures present == old(present) - {CStr(GetPipePath(applicationId, sessionId))}
    {
      var handle, binds, listens, opens, connects: bool := *, *, *, *, *;
      var bound := Create(applicationId, sessionId, handle, binds, listens);
      if bound.None? {
        return;
      }
      var connected := Open(applicationId, sessionId, opens, connects);
      if connected {
        Destroy(None);
      }
      assert bound.value != "" by {
        assert GetPipePath(applicationId, sessionId)[0] == '/';
      }
      Destroy(bound);
    }
  }
}
