/** The pieces of Rust's `str` that the modelled code relies on. */
module UnicodeText {

  /** The Unicode `White_Space` property, which `str::trim` and `str::trim_start` strip. */
  predicate IsWhitespace(c: char) {
    || 0x09 <= c as int <= 0x0D
    || c as int in {0x20, 0x85, 0xA0, 0x1680, 0x2028, 0x2029, 0x202F, 0x205F, 0x3000}
    || 0x2000 <= c as int <= 0x200A
  }

  /** The suffix of `s` that starts at its first character that is not white space. */
  function TrimStart(s: string): string
  {
    if s == [] || !IsWhitespace(s[0]) then s else TrimStart(s[1..])
  }

  lemma {:induction false} TrimStartIsSuffix(s: string)
    ensures |TrimStart(s)| <= |s| && TrimStart(s) == s[|s| - |TrimStart(s)|..]
  {
    if s != "" && IsWhitespace(s[0]) {
      var k := |s| - 1 - |TrimStart(s[1..])|;
      TrimStartIsSuffix(s[1..]);
      assert s[1..][k..] == s[k + 1..];
    }
  }

  /** What stands before it is white space, and it does not start with any. */
  lemma {:induction false} TrimStartStrips(s: string, i: nat)
    requires i < |s| - |TrimStart(s)|
    ensures IsWhitespace(s[i])
  {
    if i > 0 {
      TrimStartStrips(s[1..], i - 1);
    }
  }

  lemma {:induction false} TrimStartStops(s: string)
    ensures TrimStart(s) != "" ==> !IsWhitespace(TrimStart(s)[0])
  {
    if s != "" && IsWhitespace(s[0]) {
      TrimStartStops(s[1..]);
    }
  }
}
