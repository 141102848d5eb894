/** The a2 callback codec: a2:<action>:<session>.<revision in base 36>, at most 64 bytes. */
module CallbackTokens {
  import opened Prelude
  import opened Text

  const VERSION: string := "a2"
  const MAX_DATA_BYTES: nat := 64
  const SESSION_ID_LENGTH: nat := 22
  const MAX_REVISION_DIGITS: nat := 13
  const FIXED_BYTES: nat := |VERSION| + 2 + SESSION_ID_LENGTH + 1 + MAX_REVISION_DIGITS
  const MAX_ACTION_BYTES: nat := MAX_DATA_BYTES - FIXED_BYTES
  const REVISION_LIMIT: nat := 0x1_0000_0000_0000_0000

  datatype Fault = InvalidToken | DataTooLong

  datatype Token = Token(actionId: string, sessionId: string, revision: nat)

  // ----- identifiers

  predicate IdentifierChar(c: char) {
    'a' <= c <= 'z' || '0' <= c <= '9' || c == '.' || c == '_' || c == '-'
  }

  predicate ValidIdentifier(s: string) {
    |s| > 0 && s == ToLower(s) && forall i :: 0 <= i < |s| ==> IdentifierChar(s[i])
  }

  predicate Base64Char(c: char) {
    'A' <= c <= 'Z' || 'a' <= c <= 'z' || '0' <= c <= '9' || c == '-' || c == '_'
  }

  /** 22 characters of the base64url alphabet of section 5 of RFC 4648, which decode to 16 bytes. */
  predicate ValidSessionId(s: string) {
    |s| == SESSION_ID_LENGTH && forall i :: 0 <= i < |s| ==> Base64Char(s[i])
  }

  function ValidateActionId(actionId: string): Option<Fault> {
    var id := Normalize(actionId);
    if !ValidIdentifier(id) then Some(InvalidToken)
    else if |id| > MAX_ACTION_BYTES then Some(DataTooLong)
    else None
  }

  lemma TrimKeeps(s: string)
    requires forall i :: 0 <= i < |s| ==> !IsSpace(s[i])
    ensures Trim(s) == s
  {
  }

  /** Valid identifiers are already normal. */
  lemma ValidIsNormal(id: string)
    requires ValidIdentifier(id)
    ensures Normalize(id) == id
  {
    TrimKeeps(id);
  }

  // ----- base 36

  function DigitChar(d: nat): char
    requires d < 36
  {
    if d < 10 then ('0' as int + d) as char else ('a' as int + d - 10) as char
  }

  function DigitValue(c: char): Option<nat> {
    if '0' <= c <= '9' then Some(c as int - '0' as int)
    else if 'a' <= c <= 'z' then Some(c as int - 'a' as int + 10)
    else if 'A' <= c <= 'Z' then Some(c as int - 'A' as int + 10)
    else None
  }

  function FormatBase36(n: nat): string {
    if n < 36 then [DigitChar(n)] else FormatBase36(n / 36) + [DigitChar(n % 36)]
  }

  /** The number written by s, whatever its size; None when some character is no digit. */
  function Base36Value(s: string): Option<nat> {
    if |s| == 0 then Some(0)
    else
      match (Base36Value(s[..|s| - 1]), DigitValue(s[|s| - 1]))
      case (Some(v), Some(d)) => Some(36 * v + d)
      case _ => None
  }

  /** A uint64 revision; the empty text and values of 2^64 and more are errors. */
  function ParseRevision(s: string): Option<nat> {
    if |s| == 0 then None
    else
      match Base36Value(s)
      case Some(v) => if v < REVISION_LIMIT then Some(v) else None
      case None => None
  }

  ghost predicate Canonical(s: string) {
    |s| > 0 && (|s| > 1 ==> s[0] != '0') && forall i :: 0 <= i < |s| ==> !('A' <= s[i] <= 'Z')
  }

  /** Formatting yields canonical digits that read back as the same number. */
  lemma {:induction false} FormatReads(n: nat)
    ensures Base36Value(FormatBase36(n)) == Some(n)
    ensures Canonical(FormatBase36(n))
    ensures n > 0 ==> FormatBase36(n)[0] != '0'
    ensures forall i :: 0 <= i < |FormatBase36(n)| ==> DigitValue(FormatBase36(n)[i]).Some?
  {
    var s := FormatBase36(n);
    if n < 36 {
      assert s[..0] == [];
    } else {
      FormatReads(n / 36);
      assert s[..|s| - 1] == FormatBase36(n / 36);
    }
  }

  /** Canonical digits are the only ones formatting produces for their number. */
  lemma {:induction false} CanonicalIsFormat(s: string)
    requires Canonical(s) && Base36Value(s).Some?
    ensures FormatBase36(Base36Value(s).value) == s
    decreases |s|
  {
    var init := s[..|s| - 1];
    if |s| == 1 {
      assert Base36Value(init) == Some(0);
    } else {
      CanonicalIsFormat(init);
      PositiveLead(init);
      assert s == init + [s[|s| - 1]];
    }
  }

  lemma {:induction false} PositiveLead(s: string)
    requires |s| > 0 && s[0] != '0' && Base36Value(s).Some?
    ensures Base36Value(s).value > 0
    decreases |s|
  {
    if |s| == 1 {
      assert s[..0] == [];
    } else {
      PositiveLead(s[..|s| - 1]);
    }
  }

  function Power36(k: nat): nat {
    if k == 0 then 1 else 36 * Power36(k - 1)
  }

  lemma {:induction false} FormatLength(n: nat, k: nat)
    requires k > 0 && n < Power36(k)
    ensures |FormatBase36(n)| <= k
    decreases k
  {
    if n >= 36 {
      FormatLength(n / 36, k - 1);
    }
  }

  lemma RevisionDigits(revision: nat)
    requires revision < REVISION_LIMIT
    ensures |FormatBase36(revision)| <= MAX_REVISION_DIGITS
  {
    assert Power36(4) == 1679616;
    assert Power36(8) == 36 * (36 * (36 * (36 * Power36(4))));
    assert Power36(12) == 36 * (36 * (36 * (36 * Power36(8))));
    assert Power36(13) == 36 * Power36(12);
    FormatLength(revision, 13);
  }

  // ----- the codec

  /** The text of a token whose parts are given. */
  function Layout(actionId: string, sessionId: string, revision: string): string {
    VERSION + ":" + actionId + ":" + sessionId + "." + revision
  }

  function Encode(featureId: string, actionId: string, sessionId: string, revision: nat): Result<string, Fault> {
    var action := Normalize(actionId);
    if !ValidIdentifier(Normalize(featureId)) || !ValidSessionId(sessionId) || revision == 0 then Err(InvalidToken)
    else
      match ValidateActionId(action)
      case Some(fault) => Err(fault)
      case None =>
        var raw := VERSION + ":" + action + ":" + (sessionId + "." + FormatBase36(revision));
        if |raw| > MAX_DATA_BYTES then Err(DataTooLong) else Ok(raw)
  }

  predicate OwnsData(data: string) {
    |data| >= 3 && data[0] == 'a' && data[1] == '2' && data[2] == ':'
  }

  function Parse(data: string): Result<Token, Fault> {
    if |data| == 0 || |data| > MAX_DATA_BYTES then Err(InvalidToken)
    else
      var parts := Split(data, ':');
      if |parts| != 3 || parts[0] != VERSION then Err(InvalidToken)
      else if Normalize(parts[1]) != parts[1] || ValidateActionId(parts[1]).Some? then Err(InvalidToken)
      else
        var opaqueParts := Split(parts[2], '.');
        if |opaqueParts| != 2 || !ValidSessionId(opaqueParts[0]) then Err(InvalidToken)
        else
          match ParseRevision(opaqueParts[1])
          case None => Err(InvalidToken)
          case Some(revision) =>
            if revision == 0 then Err(InvalidToken) else Ok(Token(parts[1], opaqueParts[0], revision))
  }

  /** What a token may be made of. */
  predicate Admissible(t: Token) {
    && ValidIdentifier(t.actionId) && |t.actionId| <= MAX_ACTION_BYTES
    && ValidSessionId(t.sessionId) && 0 < t.revision < REVISION_LIMIT
  }

  lemma Digits(s: string)
    requires Base36Value(s).Some?
    ensures forall i :: 0 <= i < |s| ==> DigitValue(s[i]).Some?
    decreases |s|
  {
    if |s| > 0 {
      Digits(s[..|s| - 1]);
      assert forall i :: 0 <= i < |s| - 1 ==> s[i] == s[..|s| - 1][i];
    }
  }

  lemma LayoutSplits(actionId: string, sessionId: string, text: string)
    requires ':' !in actionId && ':' !in sessionId && '.' !in sessionId && ':' !in text && '.' !in text
    ensures Split(Layout(actionId, sessionId, text), ':') == [VERSION, actionId, sessionId + "." + text]
    ensures Split(sessionId + "." + text, '.') == [sessionId, text]
  {
    hide Split;
    var tail := sessionId + "." + text;
    var rest := actionId + [':'] + tail;
    assert Layout(actionId, sessionId, text) == VERSION + [':'] + rest;
    SplitFirst(VERSION, rest, ':');
    SplitFirst(actionId, tail, ':');
    SplitNone(tail, ':');
    assert tail == sessionId + ['.'] + text;
    SplitFirst(sessionId, text, '.');
    SplitNone(text, '.');
  }

  /** Parsing accepts exactly the laid-out tokens, whatever digits spell the revision. */
  lemma ParseAccepts(t: Token, text: string)
    requires Admissible(t) && ParseRevision(text) == Some(t.revision)
    requires |Layout(t.actionId, t.sessionId, text)| <= MAX_DATA_BYTES
    ensures Parse(Layout(t.actionId, t.sessionId, text)) == Ok(t)
  {
    Digits(text);
    LayoutSplits(t.actionId, t.sessionId, text);
    ValidIsNormal(t.actionId);
  }

  lemma ParsedRevision(text: string)
    ensures ParseRevision(text).Some? ==> ParseRevision(text).value < REVISION_LIMIT
  {
  }

  /** Whatever parses is an admissible token in the given layout, and belongs to the a2 namespace. */
  lemma ParseOnlyLayouts(data: string) returns (text: string)
    requires Parse(data).Ok?
    ensures var t := Parse(data).value;
            && Admissible(t) && OwnsData(data) && |data| <= MAX_DATA_BYTES
            && ParseRevision(text) == Some(t.revision)
            && data == Layout(t.actionId, t.sessionId, text)
  {
    hide Split, Normalize, ParseRevision, Join;
    var parts := Split(data, ':');
    var opaqueParts := Split(parts[2], '.');
    text := opaqueParts[1];
    SplitJoin(data, ':');
    SplitJoin(parts[2], '.');
    JoinThree(parts, ':');
    JoinTwo(opaqueParts, '.');
    ParsedRevision(text);
    assert data == Layout(parts[1], opaqueParts[0], text);
  }

  /** Encoding succeeds exactly on admissible parts; the final length check never fires. */
  lemma EncodeExact(featureId: string, actionId: string, sessionId: string, revision: nat)
    requires revision < REVISION_LIMIT
    ensures var t := Token(Normalize(actionId), sessionId, revision);
            var r := Encode(featureId, actionId, sessionId, revision);
            && (r.Ok? <==> ValidIdentifier(Normalize(featureId)) && Admissible(t))
            && (r.Ok? ==> r.value == Layout(t.actionId, sessionId, FormatBase36(revision)) && |r.value| <= MAX_DATA_BYTES)
            && (r == Err(DataTooLong) ==> |t.actionId| > MAX_ACTION_BYTES)
  {
    RevisionDigits(revision);
    NormalizeTwice(actionId);
    var action := Normalize(actionId);
    assert VERSION + ":" + action + ":" + (sessionId + "." + FormatBase36(revision))
        == Layout(action, sessionId, FormatBase36(revision));
  }

  /** Every encoded token fits and parses back to the same action, session and revision. */
  lemma RoundTrip(featureId: string, actionId: string, sessionId: string, revision: nat)
    requires ValidIdentifier(Normalize(featureId))
    requires Admissible(Token(Normalize(actionId), sessionId, revision))
    ensures var r := Encode(featureId, actionId, sessionId, revision);
            r.Ok? && |r.value| <= MAX_DATA_BYTES && Parse(r.value) == Ok(Token(Normalize(actionId), sessionId, revision))
  {
    EncodeExact(featureId, actionId, sessionId, revision);
    FormatReads(revision);
    ParseAccepts(Token(Normalize(actionId), sessionId, revision), FormatBase36(revision));
  }

  /** Parsed data re-encodes to itself exactly when its revision is spelled canonically. */
  lemma ReEncode(featureId: string, data: string, text: string)
    requires Parse(data).Ok? && ValidIdentifier(Normalize(featureId))
    requires data == Layout(Parse(data).value.actionId, Parse(data).value.sessionId, text)
    ensures var t := Parse(data).value;
            Encode(featureId, t.actionId, t.sessionId, t.revision) == Ok(data) <==> Canonical(text)
  {
    hide Parse, Encode, Normalize;
    var other := ParseOnlyLayouts(data);
    var t := Parse(data).value;
    ValidIsNormal(t.actionId);
    EncodeExact(featureId, t.actionId, t.sessionId, t.revision);
    FormatReads(t.revision);
    var head := Layout(t.actionId, t.sessionId, "");
    assert data == head + text == head + other;
    assert text == data[|head|..] == other;
    var digits := FormatBase36(t.revision);
    assert Layout(t.actionId, t.sessionId, digits)[|head|..] == digits;
    if Canonical(text) {
      CanonicalIsFormat(text);
    }
  }
}
