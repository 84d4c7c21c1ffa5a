/** The two input checks of the init command: the Slack user ID and the API key.
    Each `validateInput` returns "" to accept and a hint to reject. */
module Setup {

  const IdHint: string := "Please enter a valid ID (not your username or API key)"
  const KeyHint: string := "Please enter a valid API key (not your username or ID)"
  const KeyLength: nat := 36

  // ---------------------------------------------------------------- user ID

  predicate IdChar(c: char) {
    'A' <= c <= 'Z' || '0' <= c <= '9'
  }

  /** The strings `/^[A-Z0-9]{5,}$/` matches: five or more upper-case letters or digits. */
  predicate IdShape(s: string) {
    |s| >= 5 && forall i :: 0 <= i < |s| ==> IdChar(s[i])
  }

  /** `/^[A-Z0-9]{5,}$/.test(s)`, scanning left to right as the anchored pattern does. */
  method TestIdPattern(s: string) returns (matched: bool)
    ensures matched <==> IdShape(s)
  {
    var i := 0;
    while i < |s|
      invariant 0 <= i <= |s|
      invariant forall j :: 0 <= j < i ==> IdChar(s[j])
    {
      if !IdChar(s[i]) {
        return false;
      }
      i := i + 1;
    }
    matched := i >= 5;
  }

  /** The ID box's `validateInput`: `!!input && pattern`; the emptiness test adds
      nothing, as the pattern needs five characters anyway. */
  function ValidateId(input: string): (message: string)
    ensures message == "" <==> |input| >= 5 && forall i :: 0 <= i < |input| ==> IdChar(input[i])
    ensures message != "" ==> message == IdHint
  {
    if input != "" && IdShape(input) then "" else IdHint
  }

  // ---------------------------------------------------------------- API key

  /** The class `[a-z,0-9,-]` as written: the commas meant as separators are
      members of the class. */
  predicate KeyCharAsWritten(c: char) {
    'a' <= c <= 'z' || c == ',' || '0' <= c <= '9' || c == '-'
  }

  /** The key box's `validateInput` as written: `/^[a-z,0-9,-]{36,36}$/`. */
  function ValidateKeyAsWritten(input: string): (message: string)
    ensures message == "" <==> |input| == KeyLength && forall i :: 0 <= i < |input| ==> KeyCharAsWritten(input[i])
    ensures message != "" ==> message == KeyHint
  {
    if input != "" && |input| == KeyLength && (forall i :: 0 <= i < |input| ==> KeyCharAsWritten(input[i]))
    then "" else KeyHint
  }

  /** Thirty-six commas pass the check as written, and are refused by the corrected one. */
  lemma CommasPassAsWritten()
    ensures ValidateKeyAsWritten(seq(KeyLength, _ => ',')) == ""
    ensures ValidateKey(seq(KeyLength, _ => ',')) == KeyHint
  {
    var commas := seq(KeyLength, _ => ',');
    assert commas[0] == ',' && !KeyChar(commas[0]);
  }

  /** The class evidently intended: lower-case letters, digits and the hyphen. */
  predicate KeyChar(c: char) {
    'a' <= c <= 'z' || '0' <= c <= '9' || c == '-'
  }

  /** The key check with the intended class `[a-z0-9-]`. */
  function ValidateKey(input: string): (message: string)
    ensures message == "" <==> |input| == KeyLength && forall i :: 0 <= i < |input| ==> KeyChar(input[i])
    ensures message != "" ==> message == KeyHint
    ensures message == "" ==> ',' !in input && ValidateKeyAsWritten(input) == ""
  {
    if input != "" && |input| == KeyLength && (forall i :: 0 <= i < |input| ==> KeyChar(input[i]))
    then "" else KeyHint
  }

  predicate LowerHex(c: char) {
    '0' <= c <= '9' || 'a' <= c <= 'f'
  }

  /** A lower-case UUID: 8-4-4-4-12 hexadecimal digits separated by hyphens. */
  predicate LowerUuid(s: string) {
    && |s| == 36
    && (forall i :: 0 <= i < |s| && i != 8 && i != 13 && i != 18 && i != 23 ==> LowerHex(s[i]))
    && s[8] == '-' && s[13] == '-' && s[18] == '-' && s[23] == '-'
  }

  /** Every key in the UUID form the service issues is accepted. */
  lemma UuidKeysAccepted(k: string)
    requires LowerUuid(k)
    ensures ValidateKey(k) == ""
  {
    forall i | 0 <= i < |k|
      ensures KeyChar(k[i])
    {
      if i != 8 && i != 13 && i != 18 && i != 23 {
        assert LowerHex(k[i]);
      }
    }
  }
}
