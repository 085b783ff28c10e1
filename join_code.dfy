/** The join-code check a client runs before asking the relay for an allocation
    (NetworkLobbyManager.cs): the typed code is trimmed and upper-cased, must not
    be empty, and must match `^[6789BCDFGHJKLMNPQRTWbcdfghjklmnpqrtw]{6,12}$`. */
module JoinCodes {

  // ---------------------------------------------------------------------------
  // String normalisation: `Trim()` and `ToUpper()`

  /** `char.IsWhiteSpace`, the set `String.Trim()` removes: the separators of
      Unicode category Zs, the line and paragraph separators, and the control
      characters U+0009 to U+000D and U+0085. */
  predicate IsWhiteSpace(c: char) {
    || '\U{0009}' <= c <= '\U{000D}' || c == ' ' || c == '\U{0085}' || c == '\U{00A0}'
    || c == '\U{1680}' || '\U{2000}' <= c <= '\U{200A}' || c == '\U{2028}' || c == '\U{2029}'
    || c == '\U{202F}' || c == '\U{205F}' || c == '\U{3000}'
  }

  /** The first index at or after `i` whose character is not white space, or `|s|`. */
  function TrimStartFrom(s: string, i: nat): (a: nat)
    requires i <= |s|
    ensures i <= a <= |s|
    ensures a < |s| ==> !IsWhiteSpace(s[a])
    decreases |s| - i
  {
    if i == |s| || !IsWhiteSpace(s[i]) then i else TrimStartFrom(s, i + 1)
  }

  /** The end, at or before `j` and not before `a`, of the text left once trailing
      white space is cut off `s[a..j]`. */
  function TrimEndFrom(s: string, a: nat, j: nat): (b: nat)
    requires a <= j <= |s|
    ensures a <= b <= j
    ensures b > a ==> !IsWhiteSpace(s[b - 1])
    decreases j
  {
    if j == a || !IsWhiteSpace(s[j - 1]) then j else TrimEndFrom(s, a, j - 1)
  }

  /** `String.Trim()`: leading and trailing white space removed. */
  function Trim(s: string): string {
    var a := TrimStartFrom(s, 0);
    s[a..TrimEndFrom(s, a, |s|)]
  }

  /** Everything `TrimStartFrom` skips is white space. */
  lemma {:induction false} TrimStartSkipsWhiteSpace(s: string, i: nat)
    requires i <= |s|
    ensures forall k :: i <= k < TrimStartFrom(s, i) ==> IsWhiteSpace(s[k])
    decreases |s| - i
  {
    if i < |s| && IsWhiteSpace(s[i]) {
      TrimStartSkipsWhiteSpace(s, i + 1);
    }
  }

  /** Everything `TrimEndFrom` cuts off is white space. */
  lemma {:induction false} TrimEndSkipsWhiteSpace(s: string, a: nat, j: nat)
    requires a <= j <= |s|
    ensures forall k :: TrimEndFrom(s, a, j) <= k < j ==> IsWhiteSpace(s[k])
    decreases j
  {
    if j > a && IsWhiteSpace(s[j - 1]) {
      TrimEndSkipsWhiteSpace(s, a, j - 1);
    }
  }

  /** `Trim` keeps a middle part of its input: what it drops on either side is white
      space, and what it keeps neither starts nor ends with white space. */
  lemma TrimFacts(s: string)
    ensures exists a, b ::
      && 0 <= a <= b <= |s| && Trim(s) == s[a..b]
      && (forall k :: 0 <= k < a ==> IsWhiteSpace(s[k]))
      && (forall k :: b <= k < |s| ==> IsWhiteSpace(s[k]))
    ensures Trim(s) != [] ==> !IsWhiteSpace(Trim(s)[0]) && !IsWhiteSpace(Trim(s)[|Trim(s)| - 1])
  {
    var a := TrimStartFrom(s, 0);
    var b := TrimEndFrom(s, a, |s|);
    TrimStartSkipsWhiteSpace(s, 0);
    TrimEndSkipsWhiteSpace(s, a, |s|);
    if b > a {
      assert Trim(s)[0] == s[a];
    }
  }

  /** White space around a text that neither starts nor ends with white space is
      exactly what `Trim` removes. */
  lemma TrimSurrounded(before: string, t: string, after: string)
    requires forall k :: 0 <= k < |before| ==> IsWhiteSpace(before[k])
    requires forall k :: 0 <= k < |after| ==> IsWhiteSpace(after[k])
    requires t != [] && !IsWhiteSpace(t[0]) && !IsWhiteSpace(t[|t| - 1])
    ensures Trim(before + t + after) == t
  {
    var s := before + t + after;
    TrimStartReaches(s, 0, |before|);
    var a := TrimStartFrom(s, 0);
    assert a == |before|;
    TrimEndReaches(s, a, |s|, |before| + |t|);
    assert s[|before|..|before| + |t|] == t;
  }

  lemma {:induction false} TrimStartReaches(s: string, i: nat, stop: nat)
    requires i <= stop < |s| && !IsWhiteSpace(s[stop])
    requires forall k :: i <= k < stop ==> IsWhiteSpace(s[k])
    ensures TrimStartFrom(s, i) == stop
    decreases stop - i
  {
    if i < stop {
      TrimStartReaches(s, i + 1, stop);
    }
  }

  lemma {:induction false} TrimEndReaches(s: string, a: nat, j: nat, stop: nat)
    requires a < stop <= j <= |s| && !IsWhiteSpace(s[stop - 1])
    requires forall k :: stop <= k < j ==> IsWhiteSpace(s[k])
    ensures TrimEndFrom(s, a, j) == stop
    decreases j
  {
    if stop < j {
      TrimEndReaches(s, a, j - 1, stop);
    }
  }

  /** `char.ToUpper` on the ASCII letters; every other character is left alone. */
  function ToUpperChar(c: char): (u: char)
    ensures 'a' <= c <= 'z' ==> u as int == c as int - 32
    ensures !('a' <= c <= 'z') ==> u == c
  {
    if 'a' <= c <= 'z' then (c as int - 32) as char else c
  }

  /** `String.ToUpper()`, character by character. */
  function ToUpper(s: string): (u: string)
    ensures |u| == |s| && forall i :: 0 <= i < |s| ==> u[i] == ToUpperChar(s[i])
  {
    seq(|s|, i requires 0 <= i < |s| => ToUpperChar(s[i]))
  }

  /** The code `StartClient` validates: the field's text, trimmed, upper-cased. */
  function Normalize(input: string): string {
    ToUpper(Trim(input))
  }

  // ---------------------------------------------------------------------------
  // The pattern

  /** The digits and upper-case letters of the class: 6-9 and sixteen consonants. */
  predicate UpperCodeChar(c: char) {
    || '6' <= c <= '9' || 'B' <= c <= 'D' || 'F' <= c <= 'H' || 'J' <= c <= 'N' || 'P' <= c <= 'R'
    || c == 'T' || c == 'W'
  }

  /** The lower-case letters of the class. */
  predicate LowerCodeChar(c: char) {
    'b' <= c <= 'd' || 'f' <= c <= 'h' || 'j' <= c <= 'n' || 'p' <= c <= 'r' || c == 't' || c == 'w'
  }

  /** The character class `[6789BCDFGHJKLMNPQRTWbcdfghjklmnpqrtw]`. */
  predicate AllowedChar(c: char) {
    UpperCodeChar(c) || LowerCodeChar(c)
  }

  /** Letters and digits the class leaves out, in upper case: the vowels, S, V, X,
      Y, Z and the digits 0-5. */
  predicate Excluded(c: char) {
    c == 'A' || c == 'E' || c == 'I' || c == 'O' || c == 'U' || c == 'S' || c == 'V' || 'X' <= c <= 'Z' || '0' <= c <= '5'
  }

  /** `[...]{6,12}` over the whole of `w`. */
  predicate CodeBody(w: string) {
    6 <= |w| <= 12 && forall i :: 0 <= i < |w| ==> AllowedChar(w[i])
  }

  /** `IsValidJoinCode`, that is `Regex.IsMatch(code, joinCodePattern)`. In .NET
      `$` matches at the end of the input and also just before a final line feed,
      so a valid body followed by one `\n` matches too. */
  predicate IsValidJoinCode(code: string) {
    CodeBody(code) || (|code| > 0 && code[|code| - 1] == '\n' && CodeBody(code[..|code| - 1]))
  }

  // ---------------------------------------------------------------------------
  // Validation and the client's gate

  const EmptyCodeMessage: string := "Please enter a join code"
  const BadFormatMessage: string := "Invalid join code format"

  /** What `ValidateJoinCode` decides; a rejection also shows `message` as an error
      in the status text. */
  datatype Verdict = Accepted | Rejected(message: string)

  /** `ValidateJoinCode`: an empty code is refused first, then a code the pattern
      does not match. A null code is treated as empty. */
  function ValidateJoinCode(code: string): (v: Verdict)
    ensures v.Accepted? <==> IsValidJoinCode(code)
    ensures code == [] ==> v == Rejected(EmptyCodeMessage)
    ensures code != [] && !IsValidJoinCode(code) ==> v == Rejected(BadFormatMessage)
  {
    if code == [] then Rejected(EmptyCodeMessage)
    else if !IsValidJoinCode(code) then Rejected(BadFormatMessage)
    else Accepted
  }

  /** How `StartClient` proceeds: it stops with an error status before any relay or
      network call, or asks the relay to join with the normalised code. */
  datatype ClientStart = Refused(message: string) | JoinsRelay(code: string)

  /** The opening of `StartClient`: normalise the field's text, validate it, and
      return at once if it is refused. */
  function StartClient(input: string): ClientStart {
    var code := Normalize(input);
    match ValidateJoinCode(code)
    case Rejected(m) => Refused(m)
    case Accepted => JoinsRelay(code)
  }

  // ---------------------------------------------------------------------------
  // Properties

  /** Upper-casing keeps a character in the alphabet exactly when it was in it
      already: the alphabet holds both cases of each of its letters. */
  lemma UpperAllowed(c: char)
    ensures AllowedChar(ToUpperChar(c)) <==> AllowedChar(c)
    ensures AllowedChar(c) ==> UpperCodeChar(ToUpperChar(c))
  {
  }

  /** A normalised code never ends with a line feed (Trim removed it), so the
      pattern's end-of-line leniency never applies to what `StartClient` checks. */
  lemma NormalizedHasNoFinalNewline(input: string)
    ensures Normalize(input) != [] ==> Normalize(input)[|Normalize(input)| - 1] != '\n'
    ensures IsValidJoinCode(Normalize(input)) <==> CodeBody(Normalize(input))
  {
    TrimFacts(input);
  }

  /** No character the class leaves out is in it. */
  lemma ExcludedNotAllowed(c: char)
    requires Excluded(c)
    ensures !AllowedChar(c)
  {
  }

  /** The gate's rule: the client asks the relay exactly when the normalised code
      has 6 to 12 characters, each a digit 6-9 or one of the upper-case consonants
      BCDFGHJKLMNPQRTW; then it passes that code on. */
  lemma StartClientJoinsIff(input: string)
    ensures StartClient(input).JoinsRelay? <==>
      6 <= |Normalize(input)| <= 12 && forall i :: 0 <= i < |Normalize(input)| ==> UpperCodeChar(Normalize(input)[i])
    ensures StartClient(input).JoinsRelay? ==> StartClient(input).code == Normalize(input)
  {
    var n := Normalize(input);
    NormalizedHasNoFinalNewline(input);
    forall i | 0 <= i < |n| ensures UpperCodeChar(n[i]) <==> AllowedChar(n[i]) {
      UpperAllowed(Trim(input)[i]);
    }
  }

  /** An empty field, or one holding only white space, is refused with "Please
      enter a join code". */
  lemma BlankInputRefused(input: string)
    requires forall k :: 0 <= k < |input| ==> IsWhiteSpace(input[k])
    ensures StartClient(input) == Refused(EmptyCodeMessage)
  {
    TrimFacts(input);
  }

  /** Surrounding white space and lower case do not matter: a body of 6 to 12
      alphabet characters, in either case and padded with white space, joins with
      its upper-case form. */
  lemma PaddedLowerCaseAccepted(before: string, body: string, after: string)
    requires forall k :: 0 <= k < |before| ==> IsWhiteSpace(before[k])
    requires forall k :: 0 <= k < |after| ==> IsWhiteSpace(after[k])
    requires CodeBody(body)
    ensures StartClient(before + body + after) == JoinsRelay(ToUpper(body))
  {
    var input := before + body + after;
    TrimSurrounded(before, body, after);
    assert Normalize(input) == ToUpper(body);
    forall i | 0 <= i < |body| ensures AllowedChar(ToUpper(body)[i]) {
      UpperAllowed(body[i]);
    }
    assert CodeBody(ToUpper(body));
    NormalizedHasNoFinalNewline(input);
  }

  /** A code holding, after trimming, any character outside the class in either
      case is refused with "Invalid join code format". */
  lemma ForbiddenCharacterRefused(input: string, i: nat)
    requires i < |Trim(input)| && !AllowedChar(Trim(input)[i])
    ensures StartClient(input) == Refused(BadFormatMessage)
  {
    var n := Normalize(input);
    assert n[i] == ToUpperChar(Trim(input)[i]);
    UpperAllowed(Trim(input)[i]);
    assert !CodeBody(n);
    NormalizedHasNoFinalNewline(input);
  }

  /** The pattern alone, for codes that do not come through `StartClient`: a body
      followed by a line feed matches, the pattern is not anchored to a prefix, and
      lengths 5 and 13 fail. */
  lemma PatternEdges()
    ensures IsValidJoinCode("BCDFGH") && IsValidJoinCode("BCDFGH\n") && IsValidJoinCode("bcdfgh")
    ensures !IsValidJoinCode("BCDFG") && !IsValidJoinCode("BCDFGHJKLMNPQ")
    ensures !IsValidJoinCode("BCDFGH\n\n") && !IsValidJoinCode("\nBCDFGH")
  {
    assert "BCDFGH\n"[..6] == "BCDFGH";
    assert "BCDFGH\n\n"[..7] == "BCDFGH\n";
    assert !AllowedChar("BCDFGH\n"[6]);
    assert !AllowedChar("\nBCDFGH"[0]);
  }
}
