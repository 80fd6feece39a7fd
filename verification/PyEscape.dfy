/** Escaping of strings for Python double-quoted literals, and the script that is built with it. The lexer
    follows section 2.4.1 of the Python 3.12 Language Reference. */
module PyEscape {
  import opened Options

  // ---------------------------------------------------------------- escaping

  /** `str::replace` of one character. */
  function Replace(s: string, c: char, t: string): (r: string) {
    if |s| == 0 then "" else (if s[0] == c then t else [s[0]]) + Replace(s[1..], c, t)
  }

  /** `escape_python_string`: four replacements, one after another. */
  function Escape(s: string): (r: string) {
    Replace(Replace(Replace(Replace(s, '\\', "\\\\"), '"', "\\\""), '\n', "\\n"), '\r', "\\r")
  }

  /** What becomes of one character. */
  function Sub(c: char): (t: string) {
    if c == '\\' then "\\\\"
    else if c == '"' then "\\\""
    else if c == '\n' then "\\n"
    else if c == '\r' then "\\r"
    else [c]
  }

  function SubAll(s: string): (r: string) {
    if |s| == 0 then "" else Sub(s[0]) + SubAll(s[1..])
  }

  lemma {:induction false} ReplaceConcat(a: string, b: string, c: char, t: string)
    ensures Replace(a + b, c, t) == Replace(a, c, t) + Replace(b, c, t)
    decreases |a|
  {
    if |a| == 0 {
      assert a + b == b;
    } else {
      assert (a + b)[0] == a[0] && (a + b)[1..] == a[1..] + b;
      ReplaceConcat(a[1..], b, c, t);
    }
  }

  lemma {:induction false} EscapeConcat(a: string, b: string)
    ensures Escape(a + b) == Escape(a) + Escape(b)
  {
    ReplaceConcat(a, b, '\\', "\\\\");
    var a1, b1 := Replace(a, '\\', "\\\\"), Replace(b, '\\', "\\\\");
    ReplaceConcat(a1, b1, '"', "\\\"");
    var a2, b2 := Replace(a1, '"', "\\\""), Replace(b1, '"', "\\\"");
    ReplaceConcat(a2, b2, '\n', "\\n");
    ReplaceConcat(Replace(a2, '\n', "\\n"), Replace(b2, '\n', "\\n"), '\r', "\\r");
  }

  lemma {:induction false} ReplaceOne(x: char, c: char, t: string)
    ensures Replace([x], c, t) == if x == c then t else [x]
  {
    assert [x][1..] == "";
  }

  lemma {:induction false} ReplaceTwo(x: char, y: char, c: char, t: string)
    ensures Replace([x, y], c, t) == (if x == c then t else [x]) + (if y == c then t else [y])
  {
    assert [x, y][1..] == [y];
    ReplaceOne(y, c, t);
  }

  /** On one character the later replacements leave the earlier ones alone. */
  lemma {:induction false} EscapeOne(c: char)
    ensures Escape([c]) == Sub(c)
  {
    ReplaceOne(c, '\\', "\\\\");
    if c == '\\' {
      ReplaceTwo('\\', '\\', '"', "\\\"");
      ReplaceTwo('\\', '\\', '\n', "\\n");
      ReplaceTwo('\\', '\\', '\r', "\\r");
    } else {
      ReplaceOne(c, '"', "\\\"");
      if c == '"' {
        ReplaceTwo('\\', '"', '\n', "\\n");
        ReplaceTwo('\\', '"', '\r', "\\r");
      } else {
        ReplaceOne(c, '\n', "\\n");
        if c == '\n' {
          ReplaceTwo('\\', 'n', '\r', "\\r");
        } else {
          ReplaceOne(c, '\r', "\\r");
        }
      }
    }
  }

  /** The four replacements are one substitution, character by character. */
  lemma {:induction false} EscapeIsSub(s: string)
    ensures Escape(s) == SubAll(s)
  {
    if |s| > 0 {
      assert s == [s[0]] + s[1..];
      EscapeConcat([s[0]], s[1..]);
      EscapeOne(s[0]);
      EscapeIsSub(s[1..]);
    }
  }

  // ---------------------------------------------------------------- Python literals

  /** Closed: the value of the literal and the text after its closing quote. Open: no closing quote on the
      line. Numeric: an escape by number or name, which this lexer does not evaluate. */
  datatype Lexed = Closed(value: string, rest: string) | Open | Numeric

  function Put(t: string, r: Lexed): (l: Lexed) {
    if r.Closed? then Closed(t + r.value, r.rest) else r
  }

  /** Escapes that stand for one character; a backslash before any other character is kept. */
  function Unescape(c: char): (t: string) {
    if c == '\n' then ""
    else if c == '\\' || c == '\'' || c == '"' then [c]
    else if c == 'n' then "\n"
    else if c == 'r' then "\r"
    else if c == 't' then "\t"
    else if c == 'a' then [7 as char]
    else if c == 'b' then [8 as char]
    else if c == 'v' then [11 as char]
    else if c == 'f' then [12 as char]
    else ['\\', c]
  }

  predicate IsNumeric(c: char) {
    '0' <= c <= '7' || c == 'x' || c == 'N' || c == 'u' || c == 'U'
  }

  /** A double-quoted literal, after its opening quote. */
  function Lex(s: string): (r: Lexed)
    decreases |s|
  {
    if |s| == 0 || s[0] == '\n' || s[0] == '\r' then Open
    else if s[0] == '"' then Closed("", s[1..])
    else if s[0] != '\\' then Put([s[0]], Lex(s[1..]))
    else if |s| == 1 then Open
    else if IsNumeric(s[1]) then Numeric
    else Put(Unescape(s[1]), Lex(s[2..]))
  }

  lemma {:induction false} LexSub(c: char, rest: string)
    ensures Lex(Sub(c) + rest) == Put([c], Lex(rest))
  {
    var t := Sub(c) + rest;
    if |Sub(c)| == 1 {
      assert t[1..] == rest;
    } else {
      assert t[2..] == rest;
    }
  }

  lemma {:induction false} LexSubAll(s: string, rest: string)
    ensures Lex(SubAll(s) + "\"" + rest) == Closed(s, rest)
  {
    if |s| == 0 {
      assert ("\"" + rest)[1..] == rest;
      assert SubAll(s) + "\"" + rest == "\"" + rest;
    } else {
      LexSubAll(s[1..], rest);
      var tail := SubAll(s[1..]) + "\"" + rest;
      assert SubAll(s) + "\"" + rest == Sub(s[0]) + tail;
      LexSub(s[0], tail);
      assert s == [s[0]] + s[1..];
    }
  }

  /** Read as a Python literal, the escaped string ends at its own closing quote and has the original
      string as its value, whatever follows. */
  lemma {:induction false} EscapeRoundTrip(s: string, rest: string)
    ensures Lex(Escape(s) + "\"" + rest) == Closed(s, rest)
  {
    EscapeIsSub(s);
    LexSubAll(s, rest);
  }

  predicate OneLine(s: string) {
    forall i :: 0 <= i < |s| ==> s[i] != '\n' && s[i] != '\r'
  }

  lemma {:induction false} SubOneLine(s: string)
    ensures OneLine(SubAll(s))
  {
    if |s| > 0 {
      SubOneLine(s[1..]);
    }
  }

  /** No raw newline or carriage return. */
  lemma {:induction false} EscapeOneLine(s: string)
    ensures OneLine(Escape(s))
  {
    EscapeIsSub(s);
    SubOneLine(s);
  }

  /** Every quote belongs to a backslash pair. */
  predicate QuotesEscaped(s: string) {
    if |s| == 0 then true
    else if s[0] == '\\' then |s| >= 2 && QuotesEscaped(s[2..])
    else s[0] != '"' && QuotesEscaped(s[1..])
  }

  lemma {:induction false} SubQuotes(s: string)
    ensures QuotesEscaped(SubAll(s))
  {
    if |s| > 0 {
      SubQuotes(s[1..]);
      var t := SubAll(s);
      if |Sub(s[0])| == 1 {
        assert t[1..] == SubAll(s[1..]);
      } else {
        assert t[2..] == SubAll(s[1..]);
      }
    }
  }

  lemma {:induction false} EscapeQuotes(s: string)
    ensures QuotesEscaped(Escape(s))
  {
    EscapeIsSub(s);
    SubQuotes(s);
  }

  // ---------------------------------------------------------------- the load script

  /** Lines, each followed by a newline. */
  function Unlines(ls: seq<string>): (s: string) {
    if |ls| == 0 then "" else Unlines(ls[..|ls| - 1]) + ls[|ls| - 1] + "\n"
  }

  function LineEnd(s: string, i: nat): (n: nat)
    requires i <= |s|
    ensures i <= n <= |s|
    decreases |s| - i
  {
    if i == |s| || s[i] == '\n' || s[i] == '\r' then i else LineEnd(s, i + 1)
  }

  /** The physical lines of a script. */
  function Lines(s: string): (ls: seq<string>)
    decreases |s|
  {
    if |s| == 0 then []
    else
      var n := LineEnd(s, 0);
      [s[..n]] + if n < |s| then Lines(s[n + 1..]) else []
  }

  const CALL: string := "dscu_load_module(\""
  const PRINT: string := "print(\""

  /** A line of the script: a call of the loader or of print with one literal as its only argument, or
      anything else. */
  datatype Stmt = Load(name: string) | Print(text: string) | Other(line: string)

  /** The literal that fills the parentheses and ends the line, after its opening quote. */
  function Argument(s: string): (r: Option<string>) {
    var l := Lex(s);
    if l.Closed? && l.rest == ")" then Some(l.value) else None
  }

  function StmtOf(line: string): (t: Stmt) {
    if CALL <= line && Argument(line[|CALL|..]).Some? then Load(Argument(line[|CALL|..]).value)
    else if PRINT <= line && Argument(line[|PRINT|..]).Some? then Print(Argument(line[|PRINT|..]).value)
    else Other(line)
  }

  function Stmts(ls: seq<string>): (ts: seq<Stmt>)
    ensures |ts| == |ls| && forall i :: 0 <= i < |ls| ==> ts[i] == StmtOf(ls[i])
  {
    seq(|ls|, i requires 0 <= i < |ls| => StmtOf(ls[i]))
  }

  /** The modules the statements load, in order. */
  function Modules(ts: seq<Stmt>): (ms: seq<string>) {
    if |ts| == 0 then []
    else Modules(ts[..|ts| - 1]) + if ts[|ts| - 1].Load? then [ts[|ts| - 1].name] else []
  }

  /** The lines that load one module, under a heading. */
  function ModuleLines(head: seq<string>, note: string, m: string): (ls: seq<string>) {
    head + [PRINT + note + Escape(m) + "\")", CALL + Escape(m) + "\")"]
  }

  /** The lines of the first `k` frameworks. */
  function FrameworkLines(note: string, fws: seq<string>, k: nat): (ls: seq<string>)
    requires k <= |fws|
  {
    if k == 0 then [] else FrameworkLines(note, fws, k - 1) + ModuleLines([""], note, fws[k - 1])
  }

  function ScriptLines(pre: seq<string>, head: seq<string>, note: string, fwNote: string, post: seq<string>,
                       m: string, fws: seq<string>): (ls: seq<string>) {
    pre + ModuleLines(head, note, m) + FrameworkLines(fwNote, fws, |fws|) + post
  }

  /** The script text, built piece by piece. */
  method LoadScript(pre: seq<string>, head: seq<string>, note: string, fwNote: string, post: seq<string>,
                    m: string, fws: seq<string>) returns (script: string)
    ensures script == Unlines(ScriptLines(pre, head, note, fwNote, post, m, fws))
  {
    script := PushLines(Unlines(pre), ModuleLines(head, note, m), pre);
    script := PushFrameworks(script, fwNote, fws, pre + ModuleLines(head, note, m));
    script := PushLines(script, post, pre + ModuleLines(head, note, m) + FrameworkLines(fwNote, fws, |fws|));
  }

  method PushLines(script0: string, ls: seq<string>, ghost done: seq<string>) returns (script: string)
    requires script0 == Unlines(done)
    ensures script == Unlines(done + ls)
  {
    UnlinesConcat(done, ls);
    script := script0 + Unlines(ls);
  }

  /** The lines of every framework. */
  method PushFrameworks(script0: string, fwNote: string, fws: seq<string>, ghost done: seq<string>)
    returns (script: string)
    requires script0 == Unlines(done)
    ensures script == Unlines(done + FrameworkLines(fwNote, fws, |fws|))
  {
    script := script0;
    assert done + [] == done;
    for k := 0 to |fws|
      invariant script == Unlines(done + FrameworkLines(fwNote, fws, k))
    {
      script := PushLines(script, ModuleLines([""], fwNote, fws[k]), done + FrameworkLines(fwNote, fws, k));
      Regroup(done, FrameworkLines(fwNote, fws, k), ModuleLines([""], fwNote, fws[k]));
    }
  }

  lemma {:induction false} Regroup(a: seq<string>, b: seq<string>, c: seq<string>)
    ensures a + b + c == a + (b + c)
  {
  }

  lemma {:induction false} UnlinesConcat(a: seq<string>, b: seq<string>)
    ensures Unlines(a + b) == Unlines(a) + Unlines(b)
    decreases |b|
  {
    if |b| == 0 {
      assert a + b == a;
    } else {
      var n := |b| - 1;
      assert (a + b)[..|a| + n] == a + b[..n];
      UnlinesConcat(a, b[..n]);
    }
  }

  // ---------------------------------------------------------------- what the script loads

  lemma {:induction false} EndOfLine(line: string, rest: string, i: nat)
    requires OneLine(line) && i <= |line|
    ensures LineEnd(line + "\n" + rest, i) == |line|
    decreases |line| - i
  {
    var s := line + "\n" + rest;
    if i < |line| {
      assert s[i] == line[i];
      EndOfLine(line, rest, i + 1);
    } else {
      assert s[i] == '\n';
    }
  }

  lemma {:induction false} LinesCons(line: string, rest: string)
    requires OneLine(line)
    ensures Lines(line + "\n" + rest) == [line] + Lines(rest)
  {
    var s := line + "\n" + rest;
    EndOfLine(line, rest, 0);
    assert s[..|line|] == line && s[|line| + 1..] == rest;
  }

  predicate AllOneLine(ls: seq<string>) {
    forall i :: 0 <= i < |ls| ==> OneLine(ls[i])
  }

  /** The script has exactly the lines it was built from. */
  lemma {:induction false} LinesUnlines(ls: seq<string>)
    requires AllOneLine(ls)
    ensures Lines(Unlines(ls)) == ls
    decreases |ls|
  {
    if |ls| > 0 {
      LinesUnlines(ls[1..]);
      assert ls == [ls[0]] + ls[1..];
      UnlinesConcat([ls[0]], ls[1..]);
      assert [ls[0]][..0] == [];
      assert Unlines([ls[0]]) == ls[0] + "\n";
      LinesCons(ls[0], Unlines(ls[1..]));
    }
  }

  /** Text without quotes, backslashes or line ends. */
  predicate Plain(s: string) {
    forall i :: 0 <= i < |s| ==> s[i] != '"' && s[i] != '\\' && s[i] != '\n' && s[i] != '\r'
  }

  lemma {:induction false} EscapePlain(s: string)
    requires Plain(s)
    ensures SubAll(s) == s
  {
    if |s| > 0 {
      EscapePlain(s[1..]);
    }
  }

  /** A fixed note in front of an escaped name is the escape of both together. */
  lemma {:induction false} EscapeNote(note: string, m: string)
    requires Plain(note)
    ensures note + Escape(m) == Escape(note + m)
  {
    EscapePlain(note);
    EscapeIsSub(note);
    EscapeConcat(note, m);
  }

  lemma {:induction false} ArgumentIs(p: string, x: string)
    requires OneLine(p)
    ensures var line := p + Escape(x) + "\")"; Argument(line[|p|..]) == Some(x) && OneLine(line)
  {
    var line := p + Escape(x) + "\")";
    assert line[|p|..] == Escape(x) + "\"" + ")";
    EscapeRoundTrip(x, ")");
    EscapeOneLine(x);
  }

  lemma {:induction false} CallStmt(m: string)
    ensures var line := CALL + Escape(m) + "\")"; StmtOf(line) == Load(m) && OneLine(line)
  {
    ArgumentIs(CALL, m);
  }

  lemma {:induction false} PrintStmt(note: string, m: string)
    requires Plain(note)
    ensures var line := PRINT + note + Escape(m) + "\")"; StmtOf(line) == Print(note + m) && OneLine(line)
  {
    var line := PRINT + note + Escape(m) + "\")";
    EscapeNote(note, m);
    assert line == PRINT + Escape(note + m) + "\")";
    ArgumentIs(PRINT, note + m);
    assert line[0] == 'p' && CALL[0] == 'd';
  }

  lemma {:induction false} StmtsConcat(a: seq<string>, b: seq<string>)
    ensures Stmts(a + b) == Stmts(a) + Stmts(b)
  {
  }

  lemma {:induction false} ModuleStmts(head: seq<string>, note: string, m: string)
    requires AllOneLine(head) && Plain(note)
    ensures Stmts(ModuleLines(head, note, m)) == Stmts(head) + [Print(note + m), Load(m)]
    ensures AllOneLine(ModuleLines(head, note, m))
  {
    var p, c := PRINT + note + Escape(m) + "\")", CALL + Escape(m) + "\")";
    PrintStmt(note, m);
    CallStmt(m);
    StmtsConcat(head, [p, c]);
  }

  /** What the lines of the first `k` frameworks say. */
  function FrameworkStmts(note: string, fws: seq<string>, k: nat): (ts: seq<Stmt>)
    requires k <= |fws|
  {
    if k == 0 then []
    else FrameworkStmts(note, fws, k - 1) + [Other(""), Print(note + fws[k - 1]), Load(fws[k - 1])]
  }

  lemma {:induction false} FrameworksSay(note: string, fws: seq<string>, k: nat)
    requires Plain(note) && k <= |fws|
    ensures Stmts(FrameworkLines(note, fws, k)) == FrameworkStmts(note, fws, k)
    ensures AllOneLine(FrameworkLines(note, fws, k))
  {
    if k > 0 {
      FrameworksSay(note, fws, k - 1);
      ModuleStmts([""], note, fws[k - 1]);
      StmtsConcat(FrameworkLines(note, fws, k - 1), ModuleLines([""], note, fws[k - 1]));
      assert Stmts([""]) == [Other("")];
    }
  }

  /** For all names: the script has exactly the lines it was built from; its statements are those of the
      fixed lines and, for the module and each framework in order, a print of the note and the name and a
      load of the name. No name can add, hide or change a statement. */
  lemma {:induction false} ScriptSays(pre: seq<string>, head: seq<string>, note: string, fwNote: string,
      post: seq<string>, m: string, fws: seq<string>)
    requires AllOneLine(pre) && AllOneLine(head) && AllOneLine(post) && Plain(note) && Plain(fwNote)
    ensures var ls := ScriptLines(pre, head, note, fwNote, post, m, fws);
            && Lines(Unlines(ls)) == ls
            && Stmts(ls) == Stmts(pre) + (Stmts(head) + [Print(note + m), Load(m)])
                            + FrameworkStmts(fwNote, fws, |fws|) + Stmts(post)
  {
    var a, b := ModuleLines(head, note, m), FrameworkLines(fwNote, fws, |fws|);
    ModuleStmts(head, note, m);
    FrameworksSay(fwNote, fws, |fws|);
    StmtsConcat(pre, a);
    StmtsConcat(pre + a, b);
    StmtsConcat(pre + a + b, post);
    LinesUnlines(ScriptLines(pre, head, note, fwNote, post, m, fws));
  }

  lemma {:induction false} ModulesConcat(a: seq<Stmt>, b: seq<Stmt>)
    ensures Modules(a + b) == Modules(a) + Modules(b)
    decreases |b|
  {
    if |b| == 0 {
      assert a + b == a;
    } else {
      var n := |b| - 1;
      assert (a + b)[..|a| + n] == a + b[..n];
      ModulesConcat(a, b[..n]);
    }
  }

  lemma {:induction false} ModulesOfTwo(t: Stmt, m: string)
    requires !t.Load?
    ensures Modules([t, Load(m)]) == [m]
  {
    assert [t, Load(m)][..1] == [t] && [t][..0] == [];
    assert Modules([t]) == [];
  }

  lemma {:induction false} FrameworkModules(note: string, fws: seq<string>, k: nat)
    requires k <= |fws|
    ensures Modules(FrameworkStmts(note, fws, k)) == fws[..k]
  {
    if k > 0 {
      var fw := fws[k - 1];
      FrameworkModules(note, fws, k - 1);
      assert [Other(""), Print(note + fw), Load(fw)] == [Other("")] + [Print(note + fw), Load(fw)];
      ModulesConcat(FrameworkStmts(note, fws, k - 1), [Other(""), Print(note + fw), Load(fw)]);
      ModulesConcat([Other("")], [Print(note + fw), Load(fw)]);
      ModulesOfTwo(Print(note + fw), fw);
      assert [Other("")][..0] == [];
      assert fws[..k] == fws[..k - 1] + [fw];
    }
  }

  /** If the fixed lines load nothing, the script loads exactly the module and then the frameworks, in order. */
  lemma {:induction false} ScriptLoads(pre: seq<string>, head: seq<string>, note: string, fwNote: string,
      post: seq<string>, m: string, fws: seq<string>)
    requires AllOneLine(pre) && AllOneLine(head) && AllOneLine(post) && Plain(note) && Plain(fwNote)
    requires Modules(Stmts(pre)) == [] && Modules(Stmts(head)) == [] && Modules(Stmts(post)) == []
    ensures Modules(Stmts(ScriptLines(pre, head, note, fwNote, post, m, fws))) == [m] + fws
  {
    var a, b := Stmts(head) + [Print(note + m), Load(m)], FrameworkStmts(fwNote, fws, |fws|);
    ScriptSays(pre, head, note, fwNote, post, m, fws);
    ModulesOfTwo(Print(note + m), m);
    ModulesConcat(Stmts(head), [Print(note + m), Load(m)]);
    FrameworkModules(fwNote, fws, |fws|);
    ModulesConcat(Stmts(pre), a);
    ModulesConcat(Stmts(pre) + a, b);
    ModulesConcat(Stmts(pre) + a + b, Stmts(post));
    assert fws[..|fws|] == fws;
  }
}
