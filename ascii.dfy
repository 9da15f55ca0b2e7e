/**
 * The ASCII character classes of Rust's `char` that the editor, the tokenizer
 * and the parser consult.
 */
module Ascii {

  /** `char::is_ascii` */
  predicate IsAscii(c: char) {
    c as int < 128
  }

  /** `char::is_ascii_alphabetic` */
  predicate IsAlphabetic(c: char) {
    'a' <= c <= 'z' || 'A' <= c <= 'Z'
  }

  /** `char::is_ascii_digit` */
  predicate IsDigit(c: char) {
    '0' <= c <= '9'
  }

  /** `char::is_ascii_alphanumeric` */
  predicate IsAlphanumeric(c: char) {
    IsAlphabetic(c) || IsDigit(c)
  }

  /** `char::is_ascii_punctuation`: the four runs of printable non-alphanumeric characters */
  predicate IsPunctuation(c: char) {
    '!' <= c <= '/' || ':' <= c <= '@' || '[' <= c <= '`' || '{' <= c <= '~'
  }

  /** `char::is_ascii_whitespace`: space, tab, line feed, form feed and carriage return (not vertical tab) */
  predicate IsWhitespace(c: char) {
    c == ' ' || c == '\t' || c == '\n' || c as int == 0x0C || c == '\r'
  }

  /**
   * The White_Space characters that `str::trim` removes, restricted to the
   * ASCII range: tab through carriage return, and space.
   */
  predicate IsTrimmable(c: char) {
    c == ' ' || 0x09 <= c as int <= 0x0D
  }

  /** str::trim on ASCII text: drops the leading and trailing trimmable characters. */
  function Trim(s: string): (r: string)
    ensures |r| <= |s|
    ensures r == [] || (!IsTrimmable(r[0]) && !IsTrimmable(r[|r| - 1]))
  {
    TrimEnd(TrimStart(s))
  }

  /** str::trim_start: drops the leading trimmable characters, and only those. */
  function TrimStart(s: string): (r: string)
    ensures |r| <= |s| && r == s[|s| - |r|..]
    ensures forall j :: 0 <= j < |s| - |r| ==> IsTrimmable(s[j])
    ensures r == [] || !IsTrimmable(r[0])
    decreases |s|
  {
    if s != [] && IsTrimmable(s[0]) then TrimStart(s[1..]) else s
  }

  /** str::trim_end: drops the trailing trimmable characters, and only those. */
  function TrimEnd(s: string): (r: string)
    ensures |r| <= |s| && r == s[..|r|]
    ensures forall j :: |r| <= j < |s| ==> IsTrimmable(s[j])
    ensures r == [] || !IsTrimmable(r[|r| - 1])
    decreases |s|
  {
    if s != [] && IsTrimmable(s[|s| - 1]) then TrimEnd(s[..|s| - 1]) else s
  }

  /** Text with nothing trimmable at either end is its own trim. */
  lemma TrimKeeps(s: string)
    requires s == [] || (!IsTrimmable(s[0]) && !IsTrimmable(s[|s| - 1]))
    ensures Trim(s) == s
  {
  }

  /** A leading blank does not change the trim. */
  lemma TrimBlankFront(s: string)
    ensures Trim([' '] + s) == Trim(s)
  {
    assert ([' '] + s)[1..] == s;
  }

  /** A trailing blank does not change the trim. */
  lemma TrimBlankBack(s: string)
    ensures Trim(s + [' ']) == Trim(s)
  {
    var t := TrimStart(s);
    if t == [] {
      TrimStartAllTrimmable(s, [' ']);
      assert TrimStart([' ']) == TrimStart([' '][1..]);
    } else {
      TrimStartKeepsTail(s, [' ']);
      assert (t + [' '])[..|t + [' ']| - 1] == t;
    }
  }

  lemma {:induction false} TrimStartAllTrimmable(s: string, u: string)
    requires TrimStart(s) == []
    ensures TrimStart(s + u) == TrimStart(u)
    decreases |s|
  {
    if s == [] {
      assert s + u == u;
    } else {
      var t := s + u;
      assert IsTrimmable(s[0]) && TrimStart(s[1..]) == [];
      assert t[0] == s[0] && t[1..] == s[1..] + u;
      assert TrimStart(t) == TrimStart(t[1..]);
      TrimStartAllTrimmable(s[1..], u);
    }
  }

  lemma {:induction false} TrimStartKeepsTail(s: string, u: string)
    requires TrimStart(s) != []
    ensures TrimStart(s + u) == TrimStart(s) + u
    decreases |s|
  {
    assert (s + u)[0] == s[0];
    if IsTrimmable(s[0]) {
      assert (s + u)[1..] == s[1..] + u;
      TrimStartKeepsTail(s[1..], u);
    }
  }
}
