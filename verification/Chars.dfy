/** Character classes and trimming, as the Rust standard library defines them. */
module Chars {

  /** The Unicode White_Space property. */
  predicate IsWhite(c: char) {
    var n := c as int;
    || 0x09 <= n <= 0x0D || n == 0x20 || n == 0x85 || n == 0xA0 || n == 0x1680 || 0x2000 <= n <= 0x200A
    || n == 0x2028 || n == 0x2029 || n == 0x202F || n == 0x205F || n == 0x3000
  }

  /** `char::is_ascii_whitespace`: no vertical tab. */
  predicate IsAsciiWhite(c: char) {
    c == ' ' || c == '\t' || c == '\n' || c as int == 0x0C || c == '\r'
  }

  function TrimLeft(s: string): (r: string) {
    if |s| > 0 && IsWhite(s[0]) then TrimLeft(s[1..]) else s
  }

  function TrimRight(s: string): (r: string) {
    if |s| > 0 && IsWhite(s[|s| - 1]) then TrimRight(s[..|s| - 1]) else s
  }

  /** `str::trim`. */
  function Trim(s: string): (r: string) {
    TrimRight(TrimLeft(s))
  }
}
