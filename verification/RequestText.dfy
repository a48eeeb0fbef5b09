/** The one-line text of an activation request (src/platform/macos/activation.rs). */
module RequestText {
  import opened Prelude
  import opened Text

  const U32_MAX := 0xFFFF_FFFF

  datatype Action = ReloadOnly | ReloadAndOpen

  datatype Request = Request(targetPid: nat, action: Action)

  function Token(action: Action): string {
    match action
    case ReloadOnly => "reload"
    case ReloadAndOpen => "reload-and-open"
  }

  function FromToken(token: string): Option<Action> {
    if token == "reload" then Some(ReloadOnly)
    else if token == "reload-and-open" then Some(ReloadAndOpen)
    else None
  }

  /** The length of the leading run of characters that are (or are not) white space. */
  function RunLength(s: string, white: bool): (n: nat)
    ensures n <= |s|
    ensures forall k :: 0 <= k < n ==> IsWhitespace(s[k]) == white
    ensures n < |s| ==> IsWhitespace(s[n]) != white
  {
    if s == [] || IsWhitespace(s[0]) != white then 0 else 1 + RunLength(s[1..], white)
  }

  /** `split_whitespace`: the maximal runs of other characters. */
  function Fields(s: string): seq<string>
    decreases |s|
  {
    var rest := s[RunLength(s, true)..];
    if rest == [] then [] else [rest[..RunLength(rest, false)]] + Fields(rest[RunLength(rest, false)..])
  }

  predicate IsDigit(c: char) {
    '0' <= c <= '9'
  }

  predicate AllDigits(s: string) {
    forall k :: 0 <= k < |s| ==> IsDigit(s[k])
  }

  function DecimalValue(digits: string): nat {
    if digits == [] then 0
    else
      var last := digits[|digits| - 1];
      10 * DecimalValue(digits[..|digits| - 1]) + if IsDigit(last) then last as int - '0' as int else 0
  }

  /** `str::parse::<u32>`: an optional plus sign and at least one digit, in range. */
  function ParseU32(field: string): Option<nat> {
    var digits := if field != [] && field[0] == '+' then field[1..] else field;
    if digits == [] || !AllDigits(digits) then None
    else if DecimalValue(digits) > U32_MAX then None
    else Some(DecimalValue(digits))
  }

  /** A process id and an action; a lone process id is a request of an older release to reload and open. */
  function ParseRequest(contents: string): Option<Request> {
    var fields := Fields(contents);
    if fields == [] then None else
    var pid := ParseU32(fields[0]);
    if pid.None? then None
    else if |fields| == 1 then Some(Request(pid.value, ReloadAndOpen))
    else
      var action := FromToken(fields[1]);
      if action.None? || |fields| > 2 then None else Some(Request(pid.value, action.value))
  }

  function Decimal(n: nat): string {
    if n < 10 then ['0' + n as char] else Decimal(n / 10) + ['0' + (n % 10) as char]
  }

  function FormatRequest(pid: nat, action: Action): string {
    Decimal(pid) + " " + Token(action) + "\n"
  }

  // ---------------------------------------------------------------------
  // Round trip
  // ---------------------------------------------------------------------

  lemma {:induction false} DecimalIsDigits(n: nat)
    ensures Decimal(n) != [] && AllDigits(Decimal(n))
    ensures DecimalValue(Decimal(n)) == n
  {
    if n < 10 {
      assert Decimal(n)[..0] == [];
    } else {
      DecimalIsDigits(n / 10);
      assert Decimal(n)[..|Decimal(n)| - 1] == Decimal(n / 10);
    }
  }

  predicate IsWord(s: string) {
    s != [] && forall k :: 0 <= k < |s| ==> !IsWhitespace(s[k])
  }

  /** A word followed by white space is the first field. */
  lemma FieldsTakesWord(word: string, rest: string)
    requires IsWord(word) && rest != [] && IsWhitespace(rest[0])
    ensures Fields(word + rest) == [word] + Fields(rest)
  {
    var s := word + rest;
    assert s[0] == word[0] && RunLength(s, true) == 0 && s[0..] == s;
    assert s[|word|] == rest[0] && forall k :: 0 <= k < |word| ==> s[k] == word[k];
    assert RunLength(s, false) == |word|;
    assert s[..|word|] == word && s[|word|..] == rest;
  }

  lemma FieldsSkipsSpace(c: char, rest: string)
    requires IsWhitespace(c)
    ensures Fields([c] + rest) == Fields(rest)
  {
    assert ([c] + rest)[1..] == rest;
    assert RunLength([c] + rest, true) == 1 + RunLength(rest, true);
    assert ([c] + rest)[1 + RunLength(rest, true)..] == rest[RunLength(rest, true)..];
  }

  lemma TokenIsWord(action: Action)
    ensures IsWord(Token(action)) && FromToken(Token(action)) == Some(action)
  {
  }

  lemma DigitsAreWord(s: string)
    requires s != [] && AllDigits(s)
    ensures IsWord(s) && s[0] != '+'
  {
    forall k | 0 <= k < |s| ensures !IsWhitespace(s[k]) {
      assert IsDigit(s[k]);
    }
  }

  lemma LastField(word: string)
    requires IsWord(word)
    ensures Fields(word + "\n") == [word]
  {
    hide RunLength;
    assert IsWhitespace('\n') && Fields("") == [] by { assert RunLength("", true) == 0; }
    FieldsTakesWord(word, "\n");
    FieldsSkipsSpace('\n', "");
    assert "\n" == ['\n'] + "";
  }

  lemma TwoFields(first: string, second: string)
    requires IsWord(first) && IsWord(second)
    ensures Fields(first + " " + second + "\n") == [first, second]
  {
    hide Fields, RunLength;
    var rest := [' '] + (second + "\n");
    assert IsWhitespace(' ');
    FieldsTakesWord(first, rest);
    FieldsSkipsSpace(' ', second + "\n");
    LastField(second);
    assert first + " " + second + "\n" == first + rest;
  }

  lemma DecimalParses(pid: nat)
    requires pid <= U32_MAX
    ensures IsWord(Decimal(pid)) && ParseU32(Decimal(pid)) == Some(pid)
  {
    hide Decimal, DecimalValue;
    DecimalIsDigits(pid);
    DigitsAreWord(Decimal(pid));
  }

  /** A process id may carry a plus sign. */
  lemma SignedPidParses(pid: nat, action: Action)
    requires pid <= U32_MAX
    ensures ParseRequest("+" + Decimal(pid) + " " + Token(action) + "\n") == Some(Request(pid, action))
  {
    hide Fields, Decimal, DecimalValue;
    var signed := "+" + Decimal(pid);
    DecimalIsDigits(pid);
    DigitsAreWord(Decimal(pid));
    TokenIsWord(action);
    assert signed[1..] == Decimal(pid);
    TwoFields(signed, Token(action));
  }

  /** Every request a writer publishes is read back as the same request. */
  lemma RequestRoundTrips(pid: nat, action: Action)
    requires pid <= U32_MAX
    ensures ParseRequest(FormatRequest(pid, action)) == Some(Request(pid, action))
  {
    hide Fields, Decimal, ParseU32, IsWord;
    DecimalParses(pid);
    TokenIsWord(action);
    TwoFields(Decimal(pid), Token(action));
  }

  /** A bare process id, as older releases wrote it, still asks to reload and open. */
  lemma BarePidOpens(pid: nat)
    requires pid <= U32_MAX
    ensures ParseRequest(Decimal(pid) + "\n") == Some(Request(pid, ReloadAndOpen))
  {
    hide Fields, Decimal, ParseU32, IsWord;
    DecimalParses(pid);
    LastField(Decimal(pid));
  }

  // ---------------------------------------------------------------------
  // What is refused
  // ---------------------------------------------------------------------

  lemma ThreeFields(first: string, second: string, third: string)
    requires IsWord(first) && IsWord(second) && IsWord(third)
    ensures Fields(first + " " + second + " " + third + "\n") == [first, second, third]
  {
    hide Fields, RunLength;
    var end := second + " " + third + "\n";
    assert IsWhitespace(' ');
    FieldsTakesWord(first, [' '] + end);
    FieldsSkipsSpace(' ', end);
    TwoFields(second, third);
    assert first + " " + second + " " + third + "\n" == first + ([' '] + end);
  }

  lemma OnlyDigitsParse(field: string, k: nat)
    requires 0 < k < |field| && !IsDigit(field[k])
    ensures ParseU32(field).None?
  {
    var digits := if field[0] == '+' then field[1..] else field;
    assert digits[if field[0] == '+' then k - 1 else k] == field[k];
  }

  /** A second word is refused unless it is one of the two actions, and a third word always; so is a
      process id beyond 32 bits or with anything but digits after its first character. */
  lemma MalformedIsRefused(pid: nat, second: string, third: string)
    requires IsWord(second) && IsWord(third)
    ensures ParseRequest(Decimal(pid) + " " + second + "\n").Some? <==>
              pid <= U32_MAX && (second == "reload" || second == "reload-and-open")
    ensures ParseRequest(Decimal(pid) + " " + second + " " + third + "\n").None?
    ensures pid > U32_MAX ==> ParseRequest(Decimal(pid) + "\n").None?
    ensures (exists k :: 0 < k < |second| && !IsDigit(second[k])) ==> ParseRequest(second + "\n").None?
  {
    hide Fields, Decimal, DecimalValue, IsWord;
    DecimalIsDigits(pid);
    DigitsAreWord(Decimal(pid));
    LastField(Decimal(pid));
    LastField(second);
    TwoFields(Decimal(pid), second);
    ThreeFields(Decimal(pid), second, third);
    if k: int :| 0 < k < |second| && !IsDigit(second[k]) {
      OnlyDigitsParse(second, k);
    }
  }
}
