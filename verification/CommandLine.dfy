/** How Windows turns an argument list into a command line and back: the printer is the
    program's, the reader is the Microsoft C runtime's ("Parsing C command-line arguments"
    in the Microsoft C language reference). Characters are the already widened ones. */
module CommandLine {

  function Backslashes(n: nat): (s: string)
    ensures |s| == n
  {
    seq(n, _ => '\\')
  }

  // ---------------------------------------------------------------- the printer

  /** The rest of an argument's text, including the backslashes before the closing quote,
      when `pending` backslashes have been read and not yet written. */
  function Body(w: string, pending: nat): string
    decreases |w|
  {
    if w == "" then Backslashes(2 * pending)
    else if w[0] == '\\' then Body(w[1..], pending + 1)
    else if w[0] == '"' then Backslashes(2 * pending + 1) + "\"" + Body(w[1..], 0)
    else Backslashes(pending) + [w[0]] + Body(w[1..], 0)
  }

  function Quoted(argument: string): string {
    "\"" + Body(argument, 0) + "\""
  }

  /** The text for the remaining arguments; every one but the very first has a space before it. */
  function Text(arguments: seq<string>, first: bool): string {
    if arguments == [] then ""
    else (if first then "" else " ") + Quoted(arguments[0]) + Text(arguments[1..], false)
  }

  /** The inner loop: the text of one argument, up to its closing quote. */
  method AppendBody(line: string, wide: string) returns (commandLine: string)
    ensures commandLine == line + Body(wide, 0)
  {
    commandLine := line;
    var backslashes := 0;
    for j := 0 to |wide|
      invariant commandLine + Body(wide[j..], backslashes) == line + Body(wide, 0)
    {
      BodyStep(commandLine, wide, j, backslashes);
      if wide[j] == '\\' {
        backslashes := backslashes + 1;
      } else if wide[j] == '"' {
        commandLine := commandLine + Backslashes(backslashes * 2 + 1);
        commandLine := commandLine + "\"";
        backslashes := 0;
      } else {
        commandLine := commandLine + Backslashes(backslashes);
        backslashes := 0;
        commandLine := commandLine + [wide[j]];
      }
    }
    commandLine := commandLine + Backslashes(backslashes * 2);
  }

  method WorkerCommandLine(arguments: seq<string>) returns (commandLine: string)
    ensures commandLine == Text(arguments, true)
    ensures NoNul(arguments) ==> Parse(CStr(commandLine)) == arguments
    ensures |commandLine| <= TextBound(arguments)
  {
    commandLine := "";
    for i := 0 to |arguments|
      invariant commandLine + Text(arguments[i..], i == 0) == Text(arguments, true)
      invariant commandLine == "" <==> i == 0
    {
      TextStep(commandLine, arguments, i);
      if commandLine != "" {
        commandLine := commandLine + " ";
      }
      commandLine := commandLine + "\"";
      commandLine := AppendBody(commandLine, arguments[i]);
      commandLine := commandLine + "\"";
    }
    Printed(arguments);
  }

  lemma Printed(arguments: seq<string>)
    ensures NoNul(arguments) ==> Parse(CStr(Text(arguments, true))) == arguments
    ensures |Text(arguments, true)| <= TextBound(arguments)
  {
    if NoNul(arguments) {
      PrintThenParse(arguments);
    }
    TextLength(arguments, true);
  }

  lemma TextStep(line: string, arguments: seq<string>, i: nat)
    requires i < |arguments|
    ensures line + Text(arguments[i..], i == 0)
         == line + (if i == 0 then "" else " ") + "\"" + Body(arguments[i], 0) + "\"" + Text(arguments[i + 1..], false)
  {
    assert arguments[i..][1..] == arguments[i + 1..];
  }

  lemma BodyStep(line: string, w: string, j: nat, pending: nat)
    requires j < |w|
    ensures line + Body(w[j..], pending)
         == if w[j] == '\\' then line + Body(w[j + 1..], pending + 1)
            else if w[j] == '"' then line + Backslashes(pending * 2 + 1) + "\"" + Body(w[j + 1..], 0)
            else line + Backslashes(pending) + [w[j]] + Body(w[j + 1..], 0)
  {
    assert w[j..][1..] == w[j + 1..];
  }

  // ---------------------------------------------------------------- the runtime's reader

  predicate IsSpace(c: char) {
    c == ' ' || c == '\t'
  }

  function LeadingBackslashes(s: string): (n: nat)
    ensures n <= |s|
    ensures n < |s| ==> s[n] != '\\'
    ensures s[..n] == Backslashes(n)
  {
    if s == "" || s[0] != '\\' then 0 else
      var n := 1 + LeadingBackslashes(s[1..]);
      assert s[..n] == [s[0]] + s[1..][..n - 1];
      n
  }

  /** Reads one argument: its value and the text after it. Inside quotes white space is
      kept and `""` is a literal quote; n backslashes before a quote stand for n/2, an odd
      one out making the quote literal; other backslashes stand for themselves. */
  function ScanArgument(s: string, inQuotes: bool): (r: (string, string))
    decreases |s|, 1
    ensures |r.1| <= |s|
    ensures s != "" && (inQuotes || !IsSpace(s[0])) ==> |r.1| < |s|
    ensures r.1 != "" ==> IsSpace(r.1[0])
  {
    var n := LeadingBackslashes(s);
    ScanAfter(n, s[n..], inQuotes)
  }

  /** Reading on when `n` backslashes have just been passed. */
  function ScanAfter(n: nat, t: string, inQuotes: bool): (r: (string, string))
    requires t != "" ==> t[0] != '\\'
    decreases |t|, 0
    ensures |r.1| <= |t|
    ensures t != "" && (inQuotes || !IsSpace(t[0])) ==> |r.1| < |t|
    ensures r.1 != "" ==> IsSpace(r.1[0])
  {
    if t == "" then (Backslashes(n), "")
    else if t[0] == '"' then
      if n % 2 == 1 then
        var r := ScanArgument(t[1..], inQuotes);
        (Backslashes(n / 2) + "\"" + r.0, r.1)
      else if inQuotes && |t| > 1 && t[1] == '"' then
        var r := ScanArgument(t[2..], inQuotes);
        (Backslashes(n / 2) + "\"" + r.0, r.1)
      else
        var r := ScanArgument(t[1..], !inQuotes);
        (Backslashes(n / 2) + r.0, r.1)
    else if !inQuotes && IsSpace(t[0]) then (Backslashes(n), t)
    else
      var r := ScanArgument(t[1..], inQuotes);
      (Backslashes(n) + [t[0]] + r.0, r.1)
  }

  function Parse(s: string): seq<string>
    decreases |s|
  {
    if s == "" then []
    else if IsSpace(s[0]) then Parse(s[1..])
    else
      var r := ScanArgument(s, false);
      [r.0] + Parse(r.1)
  }

  /** A `wchar_t *` handed to the system ends at the first NUL. */
  function CStr(s: string): (r: string)
    ensures '\0' !in r
    ensures '\0' !in s ==> r == s
  {
    if s == "" || s[0] == '\0' then "" else [s[0]] + CStr(s[1..])
  }

  predicate NoNul(arguments: seq<string>) {
    forall a <- arguments :: '\0' !in a
  }

  // ---------------------------------------------------------------- printing then reading

  lemma {:induction false} ScanBackslashes(n: nat, t: string, inQuotes: bool)
    requires t != "" ==> t[0] != '\\'
    ensures ScanArgument(Backslashes(n) + t, inQuotes) == ScanAfter(n, t, inQuotes)
  {
    LeadingBackslashesOf(n, t);
    assert (Backslashes(n) + t)[n..] == t;
  }

  lemma {:induction false} LeadingBackslashesOf(n: nat, t: string)
    requires t != "" ==> t[0] != '\\'
    ensures LeadingBackslashes(Backslashes(n) + t) == n
  {
    if n == 0 {
      assert Backslashes(0) + t == t;
    } else {
      LeadingBackslashesOf(n - 1, t);
      assert (Backslashes(n) + t)[1..] == Backslashes(n - 1) + t;
    }
  }

  /** The closing quote: an even run of backslashes before it, and white space or the end after. */
  lemma ScanClose(n: nat, rest: string)
    requires rest != "" ==> IsSpace(rest[0])
    ensures ScanArgument(Backslashes(2 * n) + ("\"" + rest), true) == (Backslashes(n), rest)
  {
    ScanBackslashes(2 * n, "\"" + rest, true);
    assert ("\"" + rest)[1..] == rest;
    ScanBackslashes(0, rest, false);
    assert Backslashes(0) + rest == rest;
    assert Backslashes(n) + "" == Backslashes(n);
  }

  lemma ScanOpen(tail: string)
    ensures ScanArgument("\"" + tail, false) == ScanArgument(tail, true)
  {
    ScanBackslashes(0, "\"" + tail, false);
    assert Backslashes(0) + ("\"" + tail) == "\"" + tail;
    assert ("\"" + tail)[1..] == tail;
    var r := ScanArgument(tail, true);
    assert Backslashes(0) + r.0 == r.0;
  }

  lemma ScanEscapedQuote(n: nat, tail: string)
    ensures var r := ScanArgument(tail, true);
      ScanArgument(Backslashes(2 * n + 1) + ("\"" + tail), true) == (Backslashes(n) + "\"" + r.0, r.1)
  {
    ScanBackslashes(2 * n + 1, "\"" + tail, true);
    assert ("\"" + tail)[1..] == tail;
  }

  lemma ScanPlain(n: nat, c: char, tail: string)
    requires c != '"' && c != '\\'
    ensures var r := ScanArgument(tail, true);
      ScanArgument(Backslashes(n) + ([c] + tail), true) == (Backslashes(n) + [c] + r.0, r.1)
  {
    ScanBackslashes(n, [c] + tail, true);
    assert ([c] + tail)[1..] == tail;
  }

  /** The heart of the round trip: `pending` unwritten backslashes correspond to that many
      characters the reader has yet to see. */
  lemma {:induction false} ScanBody(w: string, pending: nat, rest: string)
    requires rest != "" ==> IsSpace(rest[0])
    ensures ScanArgument(Body(w, pending) + ("\"" + rest), true) == (Backslashes(pending) + w, rest)
    decreases |w|
  {
    if w == "" {
      ScanClose(pending, rest);
      assert Backslashes(pending) + w == Backslashes(pending);
    } else if w[0] == '\\' {
      ScanBody(w[1..], pending + 1, rest);
      assert Backslashes(pending + 1) + w[1..] == Backslashes(pending) + w;
    } else {
      ScanBody(w[1..], 0, rest);
      ScanBodyStep(w, pending, rest);
    }
  }

  lemma ScanBodyStep(w: string, pending: nat, rest: string)
    requires w != "" && w[0] != '\\'
    requires ScanArgument(Body(w[1..], 0) + ("\"" + rest), true) == (Backslashes(0) + w[1..], rest)
    ensures ScanArgument(Body(w, pending) + ("\"" + rest), true) == (Backslashes(pending) + w, rest)
  {
    var tail := Body(w[1..], 0) + ("\"" + rest);
    BodyThen(w, pending, "\"" + rest);
    Rejoin(w, pending);
    if w[0] == '"' {
      ScanEscapedQuote(pending, tail);
    } else {
      ScanPlain(pending, w[0], tail);
    }
  }

  lemma BodyThen(w: string, pending: nat, close: string)
    requires w != "" && w[0] != '\\'
    ensures Body(w, pending) + close
         == Backslashes(if w[0] == '"' then 2 * pending + 1 else pending) + ([w[0]] + (Body(w[1..], 0) + close))
  {
  }

  lemma Rejoin(w: string, pending: nat)
    requires w != ""
    ensures Backslashes(pending) + [w[0]] + (Backslashes(0) + w[1..]) == Backslashes(pending) + w
  {
  }

  lemma ScanQuoted(argument: string, rest: string)
    requires rest != "" ==> IsSpace(rest[0])
    ensures ScanArgument(Quoted(argument) + rest, false) == (argument, rest)
  {
    ScanOpen(Body(argument, 0) + ("\"" + rest));
    QuotedThen(argument, rest);
    ScanBody(argument, 0, rest);
  }

  lemma QuotedThen(argument: string, rest: string)
    ensures Quoted(argument) + rest == "\"" + (Body(argument, 0) + ("\"" + rest))
    ensures Backslashes(0) + argument == argument
  {
  }

  lemma {:induction false} ParseText(arguments: seq<string>, first: bool)
    ensures Parse(Text(arguments, first)) == arguments
    decreases |arguments|
  {
    if arguments != [] {
      var rest := Text(arguments[1..], false);
      ParseText(arguments[1..], false);
      ScanQuoted(arguments[0], rest);
      ParseFirst(Quoted(arguments[0]) + rest);
      if first {
        assert Text(arguments, first) == Quoted(arguments[0]) + rest;
      } else {
        assert Text(arguments, first) == " " + (Quoted(arguments[0]) + rest);
        ParseSpace(Quoted(arguments[0]) + rest);
      }
    }
  }

  lemma ParseFirst(s: string)
    requires s != "" && !IsSpace(s[0])
    ensures Parse(s) == [ScanArgument(s, false).0] + Parse(ScanArgument(s, false).1)
  {
  }

  lemma ParseSpace(s: string)
    ensures Parse(" " + s) == Parse(s)
  {
    assert (" " + s)[1..] == s;
  }

  lemma {:induction false} BodyNoNul(w: string, pending: nat)
    requires '\0' !in w
    ensures '\0' !in Body(w, pending)
    decreases |w|
  {
    if w != "" {
      BodyNoNul(w[1..], if w[0] == '\\' then pending + 1 else 0);
    }
  }

  lemma {:induction false} TextNoNul(arguments: seq<string>, first: bool)
    requires NoNul(arguments)
    ensures '\0' !in Text(arguments, first)
    decreases |arguments|
  {
    if arguments != [] {
      BodyNoNul(arguments[0], 0);
      TextNoNul(arguments[1..], false);
    }
  }

  /** For every list of arguments that a command line can carry at all, the worker's
      runtime sees exactly that list. */
  lemma PrintThenParse(arguments: seq<string>)
    requires NoNul(arguments)
    ensures Parse(CStr(Text(arguments, true))) == arguments
  {
    TextNoNul(arguments, true);
    ParseText(arguments, true);
  }

  /** And the exact condition: an argument with a NUL in it never survives. */
  lemma RoundTripExactly(arguments: seq<string>)
    ensures Parse(CStr(Text(arguments, true))) == arguments <==> NoNul(arguments)
  {
    if NoNul(arguments) {
      PrintThenParse(arguments);
    } else {
      ParseNoNul(CStr(Text(arguments, true)));
    }
  }

  lemma {:induction false} ScanNoNul(s: string, inQuotes: bool)
    requires '\0' !in s
    ensures '\0' !in ScanArgument(s, inQuotes).0 && '\0' !in ScanArgument(s, inQuotes).1
    decreases |s|, 1
  {
    ScanAfterNoNul(LeadingBackslashes(s), s[LeadingBackslashes(s)..], inQuotes);
  }

  lemma {:induction false} ScanAfterNoNul(n: nat, t: string, inQuotes: bool)
    requires t != "" ==> t[0] != '\\'
    requires '\0' !in t
    ensures '\0' !in ScanAfter(n, t, inQuotes).0 && '\0' !in ScanAfter(n, t, inQuotes).1
    decreases |t|, 0
  {
    if t == "" {
    } else if t[0] == '"' {
      if n % 2 == 1 {
        ScanNoNul(t[1..], inQuotes);
      } else if inQuotes && |t| > 1 && t[1] == '"' {
        ScanNoNul(t[2..], inQuotes);
      } else {
        ScanNoNul(t[1..], !inQuotes);
      }
    } else if inQuotes || !IsSpace(t[0]) {
      ScanNoNul(t[1..], inQuotes);
    }
  }

  lemma {:induction false} ParseNoNul(s: string)
    requires '\0' !in s
    ensures NoNul(Parse(s))
    decreases |s|
  {
    if s != "" {
      if IsSpace(s[0]) {
        ParseNoNul(s[1..]);
      } else {
        ScanNoNul(s, false);
        ParseNoNul(ScanArgument(s, false).1);
      }
    }
  }

  /** Distinct argument lists give distinct command lines. */
  lemma PrinterInjective(a: seq<string>, b: seq<string>)
    requires Text(a, true) == Text(b, true)
    ensures a == b
  {
    ParseText(a, true);
    ParseText(b, true);
  }

  /** Two quotes and at most two characters per character, and a separator between neighbours. */
  function TextBound(arguments: seq<string>): nat {
    if arguments == [] then 0
    else 2 * |arguments[0]| + 2 + (if |arguments| == 1 then 0 else 1) + TextBound(arguments[1..])
  }

  lemma {:induction false} BodyLength(w: string, pending: nat)
    ensures |w| + pending <= |Body(w, pending)| <= 2 * |w| + 2 * pending
    decreases |w|
  {
    if w != "" {
      BodyLength(w[1..], if w[0] == '\\' then pending + 1 else 0);
    }
  }

  lemma {:induction false} TextLength(arguments: seq<string>, first: bool)
    ensures |Text(arguments, first)| <= TextBound(arguments) + (if first || arguments == [] then 0 else 1)
    decreases |arguments|
  {
    if arguments != [] {
      BodyLength(arguments[0], 0);
      TextLength(arguments[1..], false);
    }
  }
}
