/** The text of a lock file: what the holder writes, and how another process reads the pid back. */
module LockFile {
  import opened Chars
  import Decimal
  import opened Options

  const U32: nat := 0x1_0000_0000

  // ---------------------------------------------------------------- writing

  /** The lines the holder writes. */
  function Info(pid: nat, host: string, exe: string, now: nat): (s: string) {
    "pid=" + Decimal.Print(pid) + "\nhost=" + host + "\nexe=" + exe + "\nopened_at=" + Decimal.Print(now) + "\n"
  }

  // ---------------------------------------------------------------- reading

  /** Length of the first line, without its newline. */
  function LineEnd(s: string, i: nat): (n: nat)
    requires i <= |s|
    ensures i <= n <= |s| && (n < |s| ==> s[n] == '\n')
    ensures forall j :: i <= j < n ==> s[j] != '\n'
    decreases |s| - i
  {
    if i == |s| || s[i] == '\n' then i else LineEnd(s, i + 1)
  }

  predicate AllDigits(s: string) {
    |s| > 0 && forall i :: 0 <= i < |s| ==> Decimal.IsDigit(s[i])
  }

  /** `str::parse::<u32>`: an optional plus sign, digits, no overflow. */
  function ParseU32(s: string): (r: Option<nat>) {
    var t := if |s| > 0 && s[0] == '+' then s[1..] else s;
    if AllDigits(t) && Decimal.Value(t) < U32 then Some(Decimal.Value(t)) else None
  }

  /** The value of a "pid=" line, if it is one. */
  function PidOfLine(line: string): (r: Option<Option<nat>>) {
    if "pid=" <= line then Some(ParseU32(Trim(line[4..]))) else None
  }

  /** The first "pid=" line decides. */
  function ReadPid(s: string): (r: Option<nat>)
    decreases |s|
  {
    if |s| == 0 then None
    else
      var n := LineEnd(s, 0);
      var hit := PidOfLine(s[..n]);
      if hit.Some? then hit.value
      else if n == |s| then None else ReadPid(s[n + 1..])
  }

  /** `read_lock_file_pid`, line by line. */
  method ReadLockFilePid(s: string) returns (r: Option<nat>)
    ensures r == ReadPid(s)
  {
    var rest := s;
    while |rest| > 0
      invariant ReadPid(rest) == ReadPid(s)
      decreases |rest|
    {
      var n := LineEnd(rest, 0);
      var line := rest[..n];
      if "pid=" <= line {
        return ParseU32(Trim(line[4..]));
      }
      rest := if n == |rest| then [] else rest[n + 1..];
    }
    r := None;
  }

  // ---------------------------------------------------------------- round trip

  lemma {:induction false} DigitsTrim(s: string)
    requires AllDigits(s)
    ensures Trim(s) == s
  {
    assert Decimal.IsDigit(s[0]) && Decimal.IsDigit(s[|s| - 1]);
  }

  lemma {:induction false} ParsePrinted(n: nat)
    ensures ParseU32(Trim(Decimal.Print(n))) == if n < 0x1_0000_0000 then Some(n) else None
  {
    var s := Decimal.Print(n);
    DigitsTrim(s);
    assert Decimal.IsDigit(s[0]);
    Decimal.PrintValue(n);
  }

  lemma {:induction false} FirstNewline(s: string, i: nat, n: nat)
    requires i <= n < |s| && s[n] == '\n' && forall j :: i <= j < n ==> s[j] != '\n'
    ensures LineEnd(s, i) == n
    decreases n - i
  {
    if i < n {
      FirstNewline(s, i + 1, n);
    }
  }

  /** Whatever host and path follow, the pid a holder wrote is the pid that is read. */
  lemma {:induction false} PidRoundTrip(pid: nat, host: string, exe: string, now: nat)
    requires pid < U32
    ensures ReadPid(Info(pid, host, exe, now)) == Some(pid)
  {
    var d := Decimal.Print(pid);
    var line, s := "pid=" + d, Info(pid, host, exe, now);
    var n := |line|;
    assert s[..n] == line;
    forall j | 0 <= j < n
      ensures s[j] != '\n'
    {
      assert s[j] == line[j];
      if j >= 4 {
        assert line[j] == d[j - 4] && Decimal.IsDigit(d[j - 4]);
      }
    }
    assert s[n] == '\n';
    FirstNewline(s, 0, n);
    assert line[4..] == d;
    ParsePrinted(pid);
  }

  lemma {:induction false} FirstLine(line: string, rest: string)
    requires '\n' !in line
    ensures LineEnd(line + "\n" + rest, 0) == |line|
    ensures var s := line + "\n" + rest; s[..|line|] == line && s[|line| + 1..] == rest
  {
    var s := line + "\n" + rest;
    assert forall j :: 0 <= j < |line| ==> s[j] == line[j];
    FirstNewline(s, 0, |line|);
  }

  /** In any text, lines of another kind are passed over, and the first "pid=" line decides. */
  lemma {:induction false} FirstPidLine(line: string, v: string, rest: string)
    requires '\n' !in line && '\n' !in v && (|line| < 4 || line[..4] != "pid=")
    ensures ReadPid(line + "\n" + rest) == ReadPid(rest)
    ensures ReadPid("pid=" + v + "\n" + rest) == ParseU32(Trim(v))
  {
    FirstLine(line, rest);
    FirstLine("pid=" + v, rest);
    assert ("pid=" + v)[..4] == "pid=" && ("pid=" + v)[4..] == v;
    assert !("pid=" <= line);
  }

  /** Only digits, after at most one plus sign, are read as a number. */
  lemma {:induction false} ParsedAreDigits(s: string)
    requires ParseU32(s).Some?
    ensures |s| > 0 && (48 <= s[0] as int <= 57 || (s[0] == '+' && |s| > 1))
    ensures forall i :: 1 <= i < |s| ==> 48 <= s[i] as int <= 57
  {
    if s[0] == '+' {
      assert forall i :: 1 <= i < |s| ==> s[i] == s[1..][i - 1];
    }
  }
}
