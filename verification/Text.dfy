/** The character tests and the trimming that the configuration and the mailbox share. */
module Text {
  /** Unicode White_Space, as `char::is_whitespace` has it. */
  predicate IsWhitespace(c: char) {
    var n := c as int;
    || 0x9 <= n <= 0xD || n == 0x20 || n == 0x85 || n == 0xA0 || n == 0x1680 || 0x2000 <= n <= 0x200A
    || n == 0x2028 || n == 0x2029 || n == 0x202F || n == 0x205F || n == 0x3000
  }

  /** The general category Cc, as `char::is_control` has it. */
  predicate IsControl(c: char) {
    c as int <= 0x1F || 0x7F <= c as int <= 0x9F
  }

  function TrimStart(s: string): string {
    if s != [] && IsWhitespace(s[0]) then TrimStart(s[1..]) else s
  }

  function TrimEnd(s: string): string {
    if s != [] && IsWhitespace(s[|s| - 1]) then TrimEnd(s[..|s| - 1]) else s
  }

  function Trim(s: string): string {
    TrimEnd(TrimStart(s))
  }

  /** Neither blank nor surrounded by white space. */
  predicate Trimmed(s: string) {
    s != [] && !IsWhitespace(s[0]) && !IsWhitespace(s[|s| - 1])
  }

  predicate Blank(s: string) {
    forall k :: 0 <= k < |s| ==> IsWhitespace(s[k])
  }

  /** `s` is `inner` with white space around it. */
  predicate Surrounds(s: string, inner: string) {
    exists k :: 0 <= k <= |s| - |inner|
      && s[k..k + |inner|] == inner && Blank(s[..k]) && Blank(s[k + |inner|..])
  }

  lemma {:induction false} TrimStartTrims(s: string)
    ensures |TrimStart(s)| <= |s| && s[|s| - |TrimStart(s)|..] == TrimStart(s)
    ensures Blank(s[..|s| - |TrimStart(s)|])
    ensures TrimStart(s) == [] || !IsWhitespace(TrimStart(s)[0])
    ensures TrimStart(s) == s <==> s == [] || !IsWhitespace(s[0])
  {
    if s != [] && IsWhitespace(s[0]) {
      TrimStartTrims(s[1..]);
      var n := |s| - |TrimStart(s)|;
      assert s[..n] == [s[0]] + s[1..][..n - 1];
    }
  }

  lemma {:induction false} TrimEndTrims(s: string)
    ensures TrimEnd(s) <= s && Blank(s[|TrimEnd(s)|..])
    ensures TrimEnd(s) == [] || !IsWhitespace(TrimEnd(s)[|TrimEnd(s)| - 1])
    ensures TrimEnd(s) == s <==> s == [] || !IsWhitespace(s[|s| - 1])
  {
    if s != [] && IsWhitespace(s[|s| - 1]) {
      var init := s[..|s| - 1];
      TrimEndTrims(init);
      assert s[|TrimEnd(s)|..] == init[|TrimEnd(s)|..] + [s[|s| - 1]];
    }
  }

  /** Trimming takes the white space around a text and nothing else; it leaves exactly the texts that need
      no trimming, and nothing of a blank one. */
  lemma TrimTrims(s: string)
    ensures Trim(s) == [] || Trimmed(Trim(s))
    ensures Trim(s) == s && s != [] <==> Trimmed(s)
    ensures Surrounds(s, Trim(s))
    ensures Trim(s) == [] <==> Blank(s)
  {
    hide TrimStart, TrimEnd, IsWhitespace;
    var start := TrimStart(s);
    TrimStartTrims(s);
    TrimEndTrims(start);
    var k := |s| - |start|;
    assert s[k..k + |Trim(s)|] == start[..|Trim(s)|];
    assert s[k + |Trim(s)|..] == start[|Trim(s)|..];
    if Trim(s) == [] {
      assert s == s[..k] + start;
    }
  }
}
