/**
 * Windows command lines: the quoting that turns a program and its arguments
 * into one string, against the rules by which Microsoft's C runtime takes such
 * a string apart again, and against the plain split on white space that
 * Quake-engine games use instead.
 */
module CommandLine {

  const NUL: char := '\0'
  const CHARACTERS_TO_QUOTE: seq<char> := [' ', '\t', '\n', '\U{000B}', '\"']

  // ---------------------------------------------------------------- printing

  function Slashes(n: nat): (r: string)
    ensures |r| == n && forall i :: 0 <= i < n ==> r[i] == '\\'
  {
    seq(n, _ => '\\')
  }

  /** An argument that is written as it stands. */
  predicate Plain(a: string) {
    a != "" && forall i :: 0 <= i < |a| ==> a[i] !in CHARACTERS_TO_QUOTE
  }

  /** What follows the opening quote, with `n` backslashes read and not yet written. */
  function Body(a: string, n: nat): string {
    if a == "" then Slashes(2 * n) + "\""
    else if a[0] == '\\' then Body(a[1..], n + 1)
    else if a[0] == '\"' then Slashes(2 * n + 1) + "\"" + Body(a[1..], 0)
    else Slashes(n) + [a[0]] + Body(a[1..], 0)
  }

  function Written(a: string): string {
    if Plain(a) then a else "\"" + Body(a, 0)
  }

  lemma {:induction false} BodyIsLonger(a: string, n: nat)
    ensures |Body(a, n)| > |a| + n
    decreases a
  {
    if a != "" { BodyIsLonger(a[1..], if a[0] == '\\' then n + 1 else 0); }
  }

  /** An argument is written as it stands exactly if it is not empty and has no space, tab, newline, vertical tab or
      quote. */
  lemma WrittenAsItStands(a: string)
    ensures Written(a) == a <==>
              a != "" && ' ' !in a && '\t' !in a && '\n' !in a && '\U{000B}' !in a && '\"' !in a
  {
    BodyIsLonger(a, 0);
    if a != "" && ' ' !in a && '\t' !in a && '\n' !in a && '\U{000B}' !in a && '\"' !in a {
      forall i | 0 <= i < |a| ensures a[i] !in CHARACTERS_TO_QUOTE { assert a[i] in a; }
    }
  }

  /** The part of a command line after the program's name. */
  function Tail(arguments: seq<string>): string {
    if arguments == [] then "" else " " + Written(arguments[0]) + Tail(arguments[1..])
  }

  function Line(program: string, arguments: seq<string>): string {
    "\"" + program + "\"" + Tail(arguments)
  }

  /** A search for the first character that needs quotes. */
  method NeedsNoQuotes(argument: string) returns (plain: bool)
    ensures plain <==> forall i :: 0 <= i < |argument| ==> argument[i] !in CHARACTERS_TO_QUOTE
  {
    plain := true;
    var i := 0;
    while i < |argument| && plain
      invariant 0 <= i <= |argument|
      invariant plain ==> forall k :: 0 <= k < i ==> argument[k] !in CHARACTERS_TO_QUOTE
      invariant !plain ==> exists k :: 0 <= k < |argument| && argument[k] in CHARACTERS_TO_QUOTE
    {
      plain := argument[i] !in CHARACTERS_TO_QUOTE;
      i := i + 1;
    }
  }

  method AppendArgument(commandLine: string, argument: string) returns (r: string)
    ensures r == commandLine + Written(argument)
  {
    var noQuotes := NeedsNoQuotes(argument);
    if argument != "" && noQuotes {
      return commandLine + argument;
    }
    var numBackslashes: nat := 0;
    r := commandLine + "\"";
    for i := 0 to |argument|
      invariant r + Body(argument[i..], numBackslashes) == commandLine + ("\"" + Body(argument, 0))
    {
      var rest := argument[i..];
      assert rest[1..] == argument[i + 1..];
      if argument[i] == '\\' {
        numBackslashes := numBackslashes + 1;
      } else if argument[i] == '\"' {
        r := r + Slashes(numBackslashes * 2 + 1);
        r := r + "\"";
        numBackslashes := 0;
      } else {
        r := r + Slashes(numBackslashes);
        r := r + [argument[i]];
        numBackslashes := 0;
      }
    }
    r := r + Slashes(numBackslashes * 2);
    r := r + "\"";
  }

  lemma TailStep(r: string, arguments: seq<string>, i: nat)
    requires i < |arguments|
    ensures r + Tail(arguments[i..]) == r + " " + Written(arguments[i]) + Tail(arguments[i + 1..])
  {
    var rest, w := arguments[i..], Written(arguments[i]);
    assert rest[1..] == arguments[i + 1..];
    var t := Tail(rest[1..]);
    assert r + (" " + w + t) == r + " " + w + t;
  }

  method BuildCommandLine(program: string, arguments: seq<string>) returns (r: string)
    ensures r == Line(program, arguments)
    ensures ParseCommandLine(r) == (program, arguments) <==> Representable(program, arguments)
  {
    r := "\"";
    r := r + program;
    r := r + "\"";
    for i := 0 to |arguments|
      invariant r + Tail(arguments[i..]) == Line(program, arguments)
    {
      TailStep(r, arguments, i);
      r := r + " ";
      r := AppendArgument(r, arguments[i]);
    }
    assert r + "" == r;
    RoundTrip(program, arguments);
  }

  // ------------------------------------------------- the C runtime's parsing

  predicate IsBlank(c: char) { c == ' ' || c == '\t' }

  predicate AtEnd(s: string) { s == "" || s[0] == NUL }

  /** The program's name: quotes toggle and are dropped, backslashes mean nothing. */
  function ReadProgram(s: string, quoted: bool): (r: (string, string))
    ensures NUL !in r.0 && '\"' !in r.0
  {
    if AtEnd(s) then ("", "")
    else if s[0] == '\"' then ReadProgram(s[1..], !quoted)
    else if IsBlank(s[0]) && !quoted then ("", s[1..])
    else
      var r := ReadProgram(s[1..], quoted);
      ([s[0]] + r.0, r.1)
  }

  /**
   * One argument and what follows it. Backslashes count only before a quote:
   * an even run is halved and the quote toggles, an odd run is halved and the
   * quote is a character; within quotes two quotes stand for one.
   */
  function ReadArgument(s: string, slashes: nat, quoted: bool): (r: (string, string))
    ensures |r.1| <= |s|
    ensures NUL !in r.0
  {
    if AtEnd(s) then (Slashes(slashes), "")
    else if s[0] == '\\' then ReadArgument(s[1..], slashes + 1, quoted)
    else if s[0] == '\"' then
      if slashes % 2 == 1 then
        var r := ReadArgument(s[1..], 0, quoted);
        (Slashes(slashes / 2) + "\"" + r.0, r.1)
      else if quoted && |s| > 1 && s[1] == '\"' then
        var r := ReadArgument(s[2..], 0, quoted);
        (Slashes(slashes / 2) + "\"" + r.0, r.1)
      else
        var r := ReadArgument(s[1..], 0, !quoted);
        (Slashes(slashes / 2) + r.0, r.1)
    else if IsBlank(s[0]) && !quoted then (Slashes(slashes), s)
    else
      var r := ReadArgument(s[1..], 0, quoted);
      (Slashes(slashes) + [s[0]] + r.0, r.1)
  }

  function ParseArguments(s: string): (r: seq<string>)
    ensures forall i :: 0 <= i < |r| ==> NUL !in r[i]
    decreases |s|
  {
    if AtEnd(s) then []
    else if IsBlank(s[0]) then ParseArguments(s[1..])
    else
      var a := ReadArgument(s, 0, false);
      [a.0] + ParseArguments(a.1)
  }

  function ParseCommandLine(s: string): (string, seq<string>) {
    var p := ReadProgram(s, false);
    (p.0, ParseArguments(p.1))
  }

  /** What a command line can carry at all: it ends at a NUL, and a program's name keeps no quote. */
  predicate Representable(program: string, arguments: seq<string>) {
    NUL !in program && '\"' !in program && forall i :: 0 <= i < |arguments| ==> NUL !in arguments[i]
  }

  // ------------------------------------------------------------ round trip

  /** An argument is followed by the end of the line or by a space. */
  predicate Closed(t: string) { t == "" || t[0] == ' ' }

  lemma {:induction false} ReadSlashes(n: nat, s: string, m: nat, quoted: bool)
    ensures ReadArgument(Slashes(n) + s, m, quoted) == ReadArgument(s, m + n, quoted)
    decreases n
  {
    if n == 0 {
      assert Slashes(n) + s == s;
    } else {
      assert (Slashes(n) + s)[1..] == Slashes(n - 1) + s;
      ReadSlashes(n - 1, s, m + 1, quoted);
    }
  }

  lemma RestIsPlain(a: string)
    requires a != "" && NUL !in a && forall i :: 0 <= i < |a| ==> a[i] !in CHARACTERS_TO_QUOTE
    ensures NUL !in a[1..] && forall i :: 0 <= i < |a[1..]| ==> a[1..][i] !in CHARACTERS_TO_QUOTE
  {
    assert forall i :: 0 <= i < |a[1..]| ==> a[1..][i] == a[i + 1];
  }

  lemma {:induction false} ReadPlain(a: string, t: string, n: nat)
    requires forall i :: 0 <= i < |a| ==> a[i] !in CHARACTERS_TO_QUOTE
    requires NUL !in a && Closed(t)
    ensures ReadArgument(a + t, n, false) == (Slashes(n) + a, t)
  {
    if a == "" {
      assert a + t == t && Slashes(n) + a == Slashes(n);
    } else {
      assert (a + t)[1..] == a[1..] + t;
      assert a == [a[0]] + a[1..];
      RestIsPlain(a);
      if a[0] == '\\' {
        ReadPlain(a[1..], t, n + 1);
        assert Slashes(n + 1) + a[1..] == Slashes(n) + a;
      } else {
        ReadPlain(a[1..], t, 0);
        assert Slashes(n) + [a[0]] + (Slashes(0) + a[1..]) == Slashes(n) + a;
      }
    }
  }

  /** Reading, inside quotes, a character other than a backslash as it is written after `n` of them. */
  lemma ReadOne(c: char, rest: string, t: string, n: nat)
    requires c != '\\' && c != NUL
    ensures var r := ReadArgument(rest + t, 0, true);
            ReadArgument((Slashes(if c == '\"' then 2 * n + 1 else n) + [c] + rest) + t, 0, true) ==
            (Slashes(n) + [c] + r.0, r.1)
  {
    var k, s := if c == '\"' then 2 * n + 1 else n, [c] + (rest + t);
    assert (Slashes(k) + [c] + rest) + t == Slashes(k) + s;
    ReadSlashes(k, s, 0, true);
    assert s[1..] == rest + t;
  }

  /** Reading, inside quotes, what `Body` wrote gives back the argument and stops behind it. */
  lemma {:induction false} ReadBody(a: string, t: string, n: nat)
    requires NUL !in a && Closed(t)
    ensures ReadArgument(Body(a, n) + t, 0, true) == (Slashes(n) + a, t)
  {
    if a == "" {
      assert Body(a, n) + t == Slashes(2 * n) + ("\"" + t);
      ReadSlashes(2 * n, "\"" + t, 0, true);
      assert ("\"" + t)[1..] == t;
      assert Slashes(n) + a == Slashes(n);
    } else {
      assert a == [a[0]] + a[1..];
      if a[0] == '\\' {
        ReadBody(a[1..], t, n + 1);
        assert Slashes(n + 1) + a[1..] == Slashes(n) + a;
      } else {
        ReadBody(a[1..], t, 0);
        assert Slashes(n) + [a[0]] + (Slashes(0) + a[1..]) == Slashes(n) + a;
        ReadOne(a[0], Body(a[1..], 0), t, n);
      }
    }
  }

  lemma ReadWritten(a: string, t: string)
    requires NUL !in a && Closed(t)
    ensures ReadArgument(Written(a) + t, 0, false) == (a, t)
    ensures Written(a) != "" && !IsBlank(Written(a)[0]) && Written(a)[0] != NUL
  {
    assert Slashes(0) + a == a;
    if Plain(a) {
      ReadPlain(a, t, 0);
    } else {
      ReadBody(a, t, 0);
      ReadOpening(Body(a, 0), t);
    }
  }

  /** A quote at the start of an argument opens a quoted part. */
  lemma ReadOpening(body: string, t: string)
    ensures ReadArgument("\"" + body + t, 0, false) == ReadArgument(body + t, 0, true)
  {
    var s, r := "\"" + body + t, ReadArgument(body + t, 0, true);
    assert s[1..] == body + t;
    assert Slashes(0) + r.0 == r.0;
  }

  lemma {:induction false} ParseTail(arguments: seq<string>)
    requires forall i :: 0 <= i < |arguments| ==> NUL !in arguments[i]
    ensures ParseArguments(Tail(arguments)) == arguments
    ensures Closed(Tail(arguments))
  {
    if arguments != [] {
      ParseTail(arguments[1..]);
      ReadWritten(arguments[0], Tail(arguments[1..]));
      ParseNext(Written(arguments[0]), Tail(arguments[1..]), arguments[0]);
    }
  }

  lemma ParseNext(written: string, t: string, a: string)
    requires written != "" && !IsBlank(written[0]) && written[0] != NUL
    requires ReadArgument(written + t, 0, false) == (a, t)
    ensures ParseArguments(" " + written + t) == [a] + ParseArguments(t)
  {
    var s := written + t;
    assert (" " + written + t)[1..] == s;
    assert s[0] == written[0];
  }

  lemma {:induction false} ReadName(program: string, t: string)
    requires NUL !in program && '\"' !in program
    ensures ReadProgram(program + "\"" + t, true) == (program + ReadProgram(t, false).0, ReadProgram(t, false).1)
  {
    var s := program + "\"" + t;
    if program == "" {
      assert s[1..] == t;
      assert program + ReadProgram(t, false).0 == ReadProgram(t, false).0;
    } else {
      assert s[1..] == program[1..] + "\"" + t;
      ReadName(program[1..], t);
      assert [s[0]] + (program[1..] + ReadProgram(t, false).0) == program + ReadProgram(t, false).0;
    }
  }

  lemma RoundTrip(program: string, arguments: seq<string>)
    ensures ParseCommandLine(Line(program, arguments)) == (program, arguments)
       <==> Representable(program, arguments)
  {
    if Representable(program, arguments) {
      ParseTail(arguments);
      ParseLine(program, Tail(arguments));
    }
  }

  lemma ParseLine(program: string, t: string)
    requires NUL !in program && '\"' !in program && Closed(t)
    ensures ParseCommandLine("\"" + program + "\"" + t) == (program, ParseArguments(t))
  {
    ReadName(program, t);
    assert ("\"" + program + "\"" + t)[1..] == program + "\"" + t;
    assert ReadProgram(t, false).0 == "" && program + "" == program;
    assert t != "" ==> ParseArguments(t[1..]) == ParseArguments(t);
  }

  // ------------------------------------------------- splitting on white space

  predicate IsSpace(c: char) { c == ' ' || c == '\t' || c == '\n' || c == '\U{000B}' }

  predicate Solid(w: string) { w != "" && forall i :: 0 <= i < |w| ==> !IsSpace(w[i]) }

  function WordLength(s: string): (n: nat)
    ensures n <= |s|
    ensures forall i :: 0 <= i < n ==> !IsSpace(s[i])
    ensures n < |s| ==> IsSpace(s[n])
  {
    if s == "" || IsSpace(s[0]) then 0 else 1 + WordLength(s[1..])
  }

  /** The maximal runs of characters other than white space. */
  function Words(s: string): (r: seq<string>)
    ensures forall i :: 0 <= i < |r| ==> Solid(r[i])
    decreases |s|
  {
    if s == "" then []
    else if IsSpace(s[0]) then Words(s[1..])
    else
      var n := WordLength(s);
      [s[..n]] + Words(s[n..])
  }

  lemma {:induction false} BodyKeeps(a: string, n: nat)
    ensures |Body(a, n)| > |a| + n
    ensures (forall i :: 0 <= i < |a| ==> !IsSpace(a[i])) ==> forall i :: 0 <= i < |Body(a, n)| ==> !IsSpace(Body(a, n)[i])
  {
    if a != "" {
      BodyKeeps(a[1..], if a[0] == '\\' then n + 1 else 0);
    }
  }

  lemma WrittenSolid(a: string)
    requires Solid(a)
    ensures Solid(Written(a))
    ensures Written(a) == a <==> Plain(a)
  {
    BodyKeeps(a, 0);
  }

  lemma FirstWord(w: string, t: string)
    requires Solid(w) && Closed(t)
    ensures Words(" " + w + t) == [w] + Words(t)
  {
    var s := w + t;
    assert (" " + w + t)[1..] == s;
    var n := WordLength(s);
    assert forall i :: 0 <= i < |w| ==> s[i] == w[i];
    assert t != "" ==> s[|w|] == t[0];
    assert n == |w|;
    assert s[..n] == w && s[n..] == t;
  }

  lemma {:induction false} WordsOfTail(arguments: seq<string>)
    requires forall i :: 0 <= i < |arguments| ==> Solid(arguments[i])
    ensures |Words(Tail(arguments))| == |arguments|
    ensures forall i :: 0 <= i < |arguments| ==> Words(Tail(arguments))[i] == Written(arguments[i])
  {
    if arguments != [] {
      WordsOfTail(arguments[1..]);
      WrittenSolid(arguments[0]);
      FirstWord(Written(arguments[0]), Tail(arguments[1..]));
      forall i | 0 <= i < |arguments| ensures Words(Tail(arguments))[i] == Written(arguments[i]) {
        assert i == 0 || arguments[i] == arguments[1..][i - 1];
      }
    }
  }

  /** White space alone takes the line apart exactly when nothing in it was quoted. */
  lemma WordSplit(arguments: seq<string>)
    ensures Words(Tail(arguments)) == arguments <==> forall i :: 0 <= i < |arguments| ==> Plain(arguments[i])
  {
    if forall i :: 0 <= i < |arguments| ==> Solid(arguments[i]) {
      AllSolid(arguments);
    } else {
      var i :| 0 <= i < |arguments| && !Solid(arguments[i]);
      NotSolid(arguments, i);
    }
  }

  lemma AllSolid(arguments: seq<string>)
    requires forall i :: 0 <= i < |arguments| ==> Solid(arguments[i])
    ensures Words(Tail(arguments)) == arguments <==> forall i :: 0 <= i < |arguments| ==> Plain(arguments[i])
  {
    WordsOfTail(arguments);
    var words := Words(Tail(arguments));
    forall i | 0 <= i < |arguments| ensures words[i] == arguments[i] <==> Plain(arguments[i]) {
      WrittenSolid(arguments[i]);
    }
  }

  lemma NotSolid(arguments: seq<string>, i: nat)
    requires i < |arguments| && !Solid(arguments[i])
    ensures !Plain(arguments[i]) && Words(Tail(arguments)) != arguments
  {
  }
}
