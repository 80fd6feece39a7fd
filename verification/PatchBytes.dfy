/** Parsing the bytes of a patch request: a JSON array of integers, or hex digits in any layout. */
module PatchBytes {
  import opened Chars
  import Bytes

  type Byte = Bytes.Byte

  /** A JSON value, as far as the parser looks at it. */
  datatype Item = U64(n: nat) | NotU64

  datatype Json = Array(items: seq<Item>) | Str(s: string) | Other

  datatype Error = NoBytes | BadChar(c: char) | OddLength | BadType

  datatype Result = Ok(bytes: seq<Byte>) | Err(error: Error)

  // ---------------------------------------------------------------- characters

  predicate IsSep(c: char) {
    IsAsciiWhite(c) || c == ',' || c == ':' || c == '-' || c == '_'
  }

  predicate IsHex(c: char) {
    '0' <= c <= '9' || 'a' <= c <= 'f' || 'A' <= c <= 'F'
  }

  function HexVal(c: char): (v: nat)
    requires IsHex(c)
    ensures v < 16
  {
    if c <= '9' then c as int - '0' as int
    else if c <= 'F' then c as int - 'A' as int + 10
    else c as int - 'a' as int + 10
  }

  // ---------------------------------------------------------------- the digit stream

  datatype Stream = Digits(d: string) | Bad(c: char)

  function Prepend(c: char, t: Stream): (r: Stream) {
    if t.Digits? then Digits([c] + t.d) else t
  }

  predicate HasPrefix(s: string) {
    |s| >= 2 && s[0] == '0' && (s[1] == 'x' || s[1] == 'X')
  }

  /** The digits of a text, or its first character that is neither digit nor separator; `start` says that
      no character of the current token has been read. */
  function Scan(s: string, start: bool): (r: Stream)
    decreases |s|
  {
    if |s| == 0 then Digits("")
    else if IsSep(s[0]) then Scan(s[1..], true)
    else if start && HasPrefix(s) then Scan(s[2..], false)
    else if IsHex(s[0]) then Prepend(s[0], Scan(s[1..], false))
    else Bad(s[0])
  }

  function BytesOf(d: string): (bs: seq<Byte>)
    requires |d| % 2 == 0 && forall i :: 0 <= i < |d| ==> IsHex(d[i])
  {
    if |d| == 0 then [] else [16 * HexVal(d[0]) + HexVal(d[1])] + BytesOf(d[2..])
  }

  lemma {:induction false} ScanHex(s: string, start: bool)
    requires Scan(s, start).Digits?
    ensures var d := Scan(s, start).d; forall i :: 0 <= i < |d| ==> IsHex(d[i])
    decreases |s|
  {
    if |s| > 0 {
      if IsSep(s[0]) {
        ScanHex(s[1..], true);
      } else if start && HasPrefix(s) {
        ScanHex(s[2..], false);
      } else {
        ScanHex(s[1..], false);
      }
    }
  }

  /** The result depends on the digit stream only: it fails on a bad character, no digits, or an odd number
      of them, and otherwise pairs them up. */
  function FromStream(t: Stream): (r: Result)
    requires t.Digits? ==> forall i :: 0 <= i < |t.d| ==> IsHex(t.d[i])
  {
    if t.Bad? then Err(BadChar(t.c))
    else if |t.d| == 0 then Err(NoBytes)
    else if |t.d| % 2 != 0 then Err(OddLength)
    else Ok(BytesOf(t.d))
  }

  function Truncated(items: seq<Item>): (bs: seq<Byte>) {
    if |items| == 0 then []
    else
      var rest := Truncated(items[..|items| - 1]);
      if items[|items| - 1].U64? then rest + [items[|items| - 1].n % 256] else rest
  }

  function Parse(v: Json): (r: Result) {
    match v
    case Array(items) => if Truncated(items) == [] then Err(NoBytes) else Ok(Truncated(items))
    case Str(s) =>
      var t := Scan(Trim(s), true);
      assert t.Digits? ==> forall i :: 0 <= i < |t.d| ==> IsHex(t.d[i]) by {
        if t.Digits? {
          ScanHex(Trim(s), true);
        }
      }
      FromStream(t)
    case Other => Err(BadType)
  }

  // ---------------------------------------------------------------- tokens

  /** Length of the token a text starts with. */
  function TokenEnd(s: string): (n: nat)
    ensures n <= |s| && (n < |s| ==> IsSep(s[n])) && forall i :: 0 <= i < n ==> !IsSep(s[i])
  {
    if |s| == 0 || IsSep(s[0]) then 0 else 1 + TokenEnd(s[1..])
  }

  /** The non-empty pieces between separators. */
  function Tokens(s: string): (ts: seq<string>)
    decreases |s|
  {
    if |s| == 0 then []
    else if IsSep(s[0]) then Tokens(s[1..])
    else [s[..TokenEnd(s)]] + Tokens(s[TokenEnd(s)..])
  }

  /** A token without its 0x or 0X. */
  function Cleaned(t: string): (r: string) {
    if HasPrefix(t) then t[2..] else t
  }

  /** A piece that has to be hex digits throughout. */
  function Checked(t: string): (r: Stream) {
    if |t| == 0 then Digits("")
    else if IsHex(t[0]) then Prepend(t[0], Checked(t[1..])) else Bad(t[0])
  }

  function Append(a: Stream, b: Stream): (r: Stream) {
    if a.Bad? then a else if b.Bad? then b else Digits(a.d + b.d)
  }

  function Joined(ts: seq<string>): (r: Stream) {
    if |ts| == 0 then Digits("") else Append(Checked(Cleaned(ts[0])), Joined(ts[1..]))
  }

  predicate SepFree(t: string) {
    forall i :: 0 <= i < |t| ==> !IsSep(t[i])
  }

  predicate Breaks(s: string) {
    |s| == 0 || IsSep(s[0])
  }

  /** Inside a token the scan checks every character. */
  lemma {:induction false} ScanInside(t: string, rest: string)
    requires SepFree(t) && Breaks(rest)
    ensures Scan(t + rest, false) == Append(Checked(t), Scan(rest, true))
    decreases |t|
  {
    if |t| == 0 {
      assert t + rest == rest;
    } else {
      assert (t + rest)[0] == t[0] && (t + rest)[1..] == t[1..] + rest;
      ScanInside(t[1..], rest);
      var a, b := Checked(t[1..]), Scan(rest, true);
      if a.Digits? && b.Digits? {
        assert [t[0]] + (a.d + b.d) == ([t[0]] + a.d) + b.d;
      }
    }
  }

  lemma {:induction false} ScanToken(t: string, rest: string)
    requires |t| > 0 && SepFree(t) && Breaks(rest)
    ensures Scan(t + rest, true) == Append(Checked(Cleaned(t)), Scan(rest, true))
  {
    var s := t + rest;
    assert !IsSep('x') && !IsSep('X');
    assert |rest| > 0 && |t| == 1 ==> s[1] == rest[0];
    assert |t| >= 2 ==> s[1] == t[1];
    assert HasPrefix(s) <==> HasPrefix(t);
    if HasPrefix(t) {
      assert s[2..] == t[2..] + rest;
      ScanInside(t[2..], rest);
    } else {
      ScanInside(t, rest);
      assert Scan(s, true) == Scan(s, false);
    }
  }

  /** Splitting into tokens and checking each is the same as one scan. */
  lemma {:induction false} TokensScan(s: string)
    ensures Joined(Tokens(s)) == Scan(s, true)
    decreases |s|
  {
    if |s| > 0 {
      if IsSep(s[0]) {
        TokensScan(s[1..]);
      } else {
        var n := TokenEnd(s);
        TokensScan(s[n..]);
        assert s == s[..n] + s[n..];
        ScanToken(s[..n], s[n..]);
        var ts := Tokens(s);
        assert ts[0] == s[..n] && ts[1..] == Tokens(s[n..]);
      }
    }
  }

  // ---------------------------------------------------------------- the parser

  /** The digits of the tokens, one after another; the first bad character ends it. */
  method CollectDigits(ts: seq<string>) returns (r: Stream)
    ensures r == Joined(ts)
  {
    var hex := "";
    for k := 0 to |ts|
      invariant Joined(ts) == Append(Digits(hex), Joined(ts[k..]))
    {
      assert ts[k..][0] == ts[k] && ts[k..][1..] == ts[k + 1..];
      var cleaned := Cleaned(ts[k]);
      var bad := FirstBad(cleaned);
      if bad < |cleaned| {
        return Bad(cleaned[bad]);
      }
      assert forall t: Stream :: Append(Digits(hex), Append(Digits(cleaned), t)) ==
                                  Append(Digits(hex + cleaned), t) by {
        forall t: Stream
          ensures Append(Digits(hex), Append(Digits(cleaned), t)) == Append(Digits(hex + cleaned), t)
        {
          if t.Digits? {
            assert hex + (cleaned + t.d) == (hex + cleaned) + t.d;
          }
        }
      }
      hex := hex + cleaned;
    }
    assert hex + "" == hex;
    r := Digits(hex);
  }

  /** Position of the first character that is not a hex digit, or the length. */
  method FirstBad(t: string) returns (n: nat)
    ensures n <= |t| && Checked(t) == if n < |t| then Bad(t[n]) else Digits(t)
  {
    n := 0;
    while n < |t|
      invariant n <= |t| && forall i :: 0 <= i < n ==> IsHex(t[i])
    {
      if !IsHex(t[n]) {
        CheckedBad(t, n);
        return;
      }
      n := n + 1;
    }
    CheckedGood(t);
  }

  lemma {:induction false} CheckedBad(t: string, n: nat)
    requires n < |t| && !IsHex(t[n]) && forall i :: 0 <= i < n ==> IsHex(t[i])
    ensures Checked(t) == Bad(t[n])
    decreases n
  {
    if n > 0 {
      CheckedBad(t[1..], n - 1);
    }
  }

  lemma {:induction false} CheckedGood(t: string)
    requires forall i :: 0 <= i < |t| ==> IsHex(t[i])
    ensures Checked(t) == Digits(t)
  {
    if |t| > 0 {
      CheckedGood(t[1..]);
      assert t == [t[0]] + t[1..];
    }
  }

  /** Pairs of digits to bytes. */
  method Pairs(d: string) returns (out: seq<Byte>)
    requires |d| % 2 == 0 && forall i :: 0 <= i < |d| ==> IsHex(d[i])
    ensures out == BytesOf(d)
  {
    out := [];
    var i := 0;
    while i < |d|
      invariant 0 <= i <= |d| && i % 2 == 0 && BytesOf(d) == out + BytesOf(d[i..])
    {
      var b: Byte := 16 * HexVal(d[i]) + HexVal(d[i + 1]);
      assert d[i..][2..] == d[i + 2..];
      assert BytesOf(d[i..]) == [b] + BytesOf(d[i + 2..]);
      assert out + ([b] + BytesOf(d[i + 2..])) == (out + [b]) + BytesOf(d[i + 2..]);
      out := out + [b];
      i := i + 2;
    }
  }

  method ParsePatchBytes(v: Json) returns (r: Result)
    ensures r == Parse(v)
  {
    match v
    case Other => r := Err(BadType);
    case Array(items) =>
      var out := [];
      for i := 0 to |items|
        invariant out == Truncated(items[..i])
      {
        assert items[..i + 1][..i] == items[..i];
        if items[i].U64? {
          out := out + [items[i].n % 256];
        }
      }
      assert items[..|items|] == items;
      r := if out == [] then Err(NoBytes) else Ok(out);
    case Str(s) =>
      var t := Trim(s);
      if t == "" {
        return Err(NoBytes);
      }
      TokensScan(t);
      var digits := CollectDigits(Tokens(t));
      if digits.Bad? {
        return Err(BadChar(digits.c));
      }
      ScanHex(t, true);
      if digits.d == "" {
        return Err(NoBytes);
      }
      if |digits.d| % 2 != 0 {
        return Err(OddLength);
      }
      var out := Pairs(digits.d);
      r := Ok(out);
  }

  // ---------------------------------------------------------------- round trip

  datatype Prefix = NoPrefix | LowerX | UpperX

  /** A token and the separators after it. */
  datatype Piece = Piece(prefix: Prefix, digits: string, seps: string)

  function PrefixText(p: Prefix): (s: string) {
    match p
    case NoPrefix => ""
    case LowerX => "0x"
    case UpperX => "0X"
  }

  predicate AllHex(s: string) {
    forall i :: 0 <= i < |s| ==> IsHex(s[i])
  }

  /** Space, tab, line feed, form feed, carriage return, comma, colon, dash, underscore. */
  predicate Separates(c: char) {
    var n := c as int;
    n == 32 || n == 9 || n == 10 || n == 12 || n == 13 || n == 44 || n == 58 || n == 45 || n == 95
  }

  predicate AllSep(s: string) {
    forall i :: 0 <= i < |s| ==> Separates(s[i])
  }

  /** Pieces as they may be written: separators between tokens, possibly none after the last. */
  predicate Layout(ps: seq<Piece>) {
    forall i :: 0 <= i < |ps| ==>
      && AllHex(ps[i].digits) && AllSep(ps[i].seps) && (i < |ps| - 1 ==> |ps[i].seps| > 0)
  }

  function Text(ps: seq<Piece>): (s: string) {
    if |ps| == 0 then "" else PrefixText(ps[0].prefix) + ps[0].digits + ps[0].seps + Text(ps[1..])
  }

  function AllDigits(ps: seq<Piece>): (d: string) {
    if |ps| == 0 then "" else ps[0].digits + AllDigits(ps[1..])
  }

  lemma {:induction false} ScanSeps(seps: string, rest: string)
    requires AllSep(seps)
    ensures Scan(seps + rest, true) == Scan(rest, true)
    decreases |seps|
  {
    if |seps| == 0 {
      assert seps + rest == rest;
    } else {
      assert (seps + rest)[0] == seps[0] && (seps + rest)[1..] == seps[1..] + rest;
      ScanSeps(seps[1..], rest);
    }
  }

  lemma {:induction false} HexNotSep(s: string)
    requires AllHex(s)
    ensures SepFree(s) && SepFree("0x" + s) && SepFree("0X" + s)
  {
  }

  lemma {:induction false} HexNoPrefix(s: string)
    requires AllHex(s)
    ensures !HasPrefix(s) && HasPrefix("0x" + s) && HasPrefix("0X" + s)
    ensures ("0x" + s)[2..] == s && ("0X" + s)[2..] == s
  {
    if |s| >= 2 {
      assert IsHex(s[1]);
    }
  }

  /** The scan of one token: its digits, whatever its prefix. */
  lemma {:induction false} PieceToken(p: Piece, rest: string)
    requires AllHex(p.digits) && Breaks(rest)
    ensures Scan(PrefixText(p.prefix) + p.digits + rest, true) == Append(Digits(p.digits), Scan(rest, true))
  {
    var t := PrefixText(p.prefix) + p.digits;
    HexNotSep(p.digits);
    HexNoPrefix(p.digits);
    CheckedGood(p.digits);
    if |t| > 0 {
      assert Cleaned(t) == p.digits;
      ScanToken(t, rest);
    } else {
      assert t + rest == rest;
    }
  }

  /** The scan of a token with its separators. */
  lemma {:induction false} PieceScan(p: Piece, tail: string)
    requires AllHex(p.digits) && AllSep(p.seps) && (|p.seps| == 0 ==> tail == "")
    ensures Scan(PrefixText(p.prefix) + p.digits + p.seps + tail, true) == Append(Digits(p.digits), Scan(tail, true))
  {
    var rest := p.seps + tail;
    ScanSeps(p.seps, tail);
    PieceToken(p, rest);
    assert PrefixText(p.prefix) + p.digits + p.seps + tail == PrefixText(p.prefix) + p.digits + rest;
  }

  lemma {:induction false} LayoutTail(ps: seq<Piece>)
    requires Layout(ps) && |ps| > 0
    ensures Layout(ps[1..])
  {
    assert forall i :: 0 <= i < |ps| - 1 ==> ps[1..][i] == ps[i + 1];
  }

  lemma {:induction false} TextScan(ps: seq<Piece>)
    requires Layout(ps)
    ensures Scan(Text(ps), true) == Digits(AllDigits(ps))
  {
    if |ps| > 0 {
      LayoutTail(ps);
      TextScan(ps[1..]);
      PieceScan(ps[0], Text(ps[1..]));
    }
  }

  /** Trailing separators do not matter either. */
  lemma {:induction false} ScanSnocSep(s: string, c: char, start: bool)
    requires IsSep(c)
    ensures Scan(s + [c], start) == Scan(s, start)
    decreases |s|
  {
    if |s| == 0 {
      assert s + [c] == [c];
    } else {
      assert (s + [c])[0] == s[0] && (s + [c])[1..] == s[1..] + [c];
      assert |s| == 1 ==> (s + [c])[1] == c;
      if IsSep(s[0]) {
        ScanSnocSep(s[1..], c, true);
      } else if start && HasPrefix(s) {
        assert (s + [c])[2..] == s[2..] + [c];
        ScanSnocSep(s[2..], c, false);
      } else {
        ScanSnocSep(s[1..], c, false);
      }
    }
  }

  /** White space of a layout is a separator. */
  predicate Plain(s: string) {
    forall i :: 0 <= i < |s| ==> IsWhite(s[i]) ==> IsSep(s[i])
  }

  lemma {:induction false} TrimLeftScan(s: string)
    requires Plain(s)
    ensures Scan(TrimLeft(s), true) == Scan(s, true) && Plain(TrimLeft(s))
  {
    if |s| > 0 && IsWhite(s[0]) {
      TrimLeftScan(s[1..]);
    }
  }

  lemma {:induction false} TrimRightScan(s: string)
    requires Plain(s)
    ensures Scan(TrimRight(s), true) == Scan(s, true)
  {
    if |s| > 0 && IsWhite(s[|s| - 1]) {
      TrimRightScan(s[..|s| - 1]);
      ScanSnocSep(s[..|s| - 1], s[|s| - 1], true);
      assert s == s[..|s| - 1] + [s[|s| - 1]];
    }
  }

  lemma {:induction false} TextPlain(ps: seq<Piece>)
    requires Layout(ps)
    ensures Plain(Text(ps))
  {
    if |ps| > 0 {
      LayoutTail(ps);
      TextPlain(ps[1..]);
    }
  }

  /** `d` spells `bs` in hex, in upper or lower case. */
  predicate Spells(d: string, bs: seq<Byte>) {
    if |bs| == 0 then d == ""
    else
      && |d| >= 2 && IsHex(d[0]) && IsHex(d[1]) && bs[0] == 16 * HexVal(d[0]) + HexVal(d[1])
      && Spells(d[2..], bs[1..])
  }

  lemma {:induction false} SpelledBytes(d: string, bs: seq<Byte>)
    requires Spells(d, bs)
    ensures |d| == 2 * |bs| && AllHex(d) && BytesOf(d) == bs
    decreases |bs|
  {
    if |bs| > 0 {
      SpelledBytes(d[2..], bs[1..]);
      assert d == [d[0], d[1]] + d[2..] && bs == [bs[0]] + bs[1..];
    }
  }

  function HexDigit(n: nat): (c: char)
    requires n < 16
    ensures IsHex(c) && HexVal(c) == n
  {
    if n < 10 then '0' + n as char else 'a' + (n - 10) as char
  }

  /** Two lower-case digits per byte. */
  function Print(bs: seq<Byte>): (d: string)
    ensures Spells(d, bs)
  {
    if |bs| == 0 then ""
    else
      var d := [HexDigit(bs[0] / 16), HexDigit(bs[0] % 16)] + Print(bs[1..]);
      assert d[2..] == Print(bs[1..]);
      d
  }

  lemma {:induction false} LayoutScan(ps: seq<Piece>)
    requires Layout(ps)
    ensures Scan(Trim(Text(ps)), true) == Digits(AllDigits(ps))
  {
    TextScan(ps);
    TextPlain(ps);
    TrimLeftScan(Text(ps));
    TrimRightScan(TrimLeft(Text(ps)));
  }

  lemma {:induction false} StreamSpells(d: string, bs: seq<Byte>)
    requires |bs| > 0 && Spells(d, bs)
    ensures AllHex(d) && FromStream(Digits(d)) == Ok(bs)
  {
    SpelledBytes(d, bs);
  }

  /** Any byte list, spelled in hex and cut into tokens with any separators and prefixes, parses back. */
  lemma {:induction false} RoundTrip(bs: seq<Byte>, ps: seq<Piece>)
    requires |bs| > 0 && Layout(ps) && Spells(AllDigits(ps), bs)
    ensures Parse(Str(Text(ps))) == Ok(bs)
  {
    LayoutScan(ps);
    StreamSpells(AllDigits(ps), bs);
  }

  /** The digits in both cases. */
  lemma {:induction false} HexLetters(n: nat)
    requires n < 16
    ensures HexVal("0123456789abcdef"[n]) == n && HexVal("0123456789ABCDEF"[n]) == n
  {
  }

  // ---------------------------------------------------------------- what fails

  /** A text in any layout with no digits, or an odd number of them, is an error of its own. */
  lemma {:induction false} LayoutFails(ps: seq<Piece>)
    requires Layout(ps)
    ensures Parse(Str(Text(ps))) == Err(NoBytes) <==> AllDigits(ps) == ""
    ensures Parse(Str(Text(ps))) == Err(OddLength) <==> |AllDigits(ps)| % 2 == 1
  {
    LayoutScan(ps);
  }

  /** A character that is no digit, no separator and, after text `s`, no x of a prefix. */
  predicate Foreign(s: string, c: char) {
    && !Separates(c) && c !in "0123456789abcdefABCDEF"
    && (c == 'x' || c == 'X' ==> s == "" || s[|s| - 1] != '0')
  }

  lemma {:induction false} ForeignStops(s: string, start: bool, c: char, rest: string)
    requires Scan(s, start).Digits? && !IsSep(c) && !IsHex(c)
    requires c == 'x' || c == 'X' ==> s == "" || s[|s| - 1] != '0'
    ensures Scan(s + [c] + rest, start) == Bad(c)
    decreases |s|
  {
    var t := s + [c] + rest;
    if |s| == 0 {
      assert t[0] == c;
    } else {
      assert t[0] == s[0] && t[1..] == s[1..] + [c] + rest;
      assert t[1] == if |s| == 1 then c else s[1];
      if IsSep(s[0]) {
        ForeignStops(s[1..], true, c, rest);
      } else if start && HasPrefix(s) {
        assert t[2..] == s[2..] + [c] + rest;
        ForeignStops(s[2..], false, c, rest);
      } else {
        ForeignStops(s[1..], false, c, rest);
      }
    }
  }

  lemma {:induction false} HexIsDigit(c: char)
    requires IsHex(c)
    ensures c in "0123456789abcdefABCDEF"
  {
    var all := "0123456789abcdefABCDEF";
    assert c == all[if c <= '9' then c as int - 48 else if c <= 'F' then c as int - 49 else c as int - 87];
  }

  lemma {:induction false} ForeignIs(s: string, c: char)
    requires Foreign(s, c)
    ensures !IsSep(c) && !IsHex(c)
  {
    if IsHex(c) {
      HexIsDigit(c);
    }
  }

  /** The first foreign character after a layout is reported, whatever follows it. */
  lemma {:induction false} ForeignReported(ps: seq<Piece>, c: char, rest: string, v: string)
    requires Layout(ps) && Foreign(Text(ps), c) && Trim(v) == Text(ps) + [c] + rest
    ensures Parse(Str(v)) == Err(BadChar(c))
  {
    ForeignIs(Text(ps), c);
    TextScan(ps);
    ForeignStops(Text(ps), true, c, rest);
  }

  /** An array gives the low byte of each integer in it, in order; without one it is an error. */
  lemma {:induction false} ArrayExact(a: seq<Item>, n: nat, b: seq<Item>)
    ensures Truncated(a + [U64(n)] + b) == Truncated(a) + [n % 256] + Truncated(b)
    ensures Truncated(a + [NotU64] + b) == Truncated(a) + Truncated(b) && Truncated([]) == []
    ensures Parse(Array(a)) == if exists i :: 0 <= i < |a| && a[i].U64? then Ok(Truncated(a)) else Err(NoBytes)
  {
    TruncatedConcat(a + [U64(n)], b);
    TruncatedConcat(a + [NotU64], b);
    assert (a + [U64(n)])[..|a|] == a && (a + [NotU64])[..|a|] == a;
    TruncatedEmpty(a);
  }

  lemma {:induction false} TruncatedConcat(a: seq<Item>, b: seq<Item>)
    ensures Truncated(a + b) == Truncated(a) + Truncated(b)
    decreases |b|
  {
    if |b| == 0 {
      assert a + b == a;
    } else {
      var n := |b| - 1;
      TruncatedConcat(a, b[..n]);
      assert (a + b)[..|a + b| - 1] == a + b[..n];
    }
  }

  lemma {:induction false} TruncatedEmpty(a: seq<Item>)
    ensures Truncated(a) == [] <==> !exists i :: 0 <= i < |a| && a[i].U64?
  {
    if |a| > 0 {
      var n := |a| - 1;
      TruncatedEmpty(a[..n]);
      assert forall i :: 0 <= i < n ==> a[..n][i] == a[i];
      if a[n].U64? {
        assert Truncated(a) != [];
      }
    }
  }
}
