/** Go's string helpers: white-space trimming, lower-casing and splitting. */
module Text {

  /** Unicode white space, as strings.TrimSpace removes it. */
  predicate IsSpace(c: char) {
    || c in {' ', '\t', '\n', '\r'} || c as int in {0x0B, 0x0C, 0x85, 0xA0, 0x1680, 0x2028, 0x2029, 0x202F, 0x205F, 0x3000}
    || 0x2000 <= c as int <= 0x200A
  }

  function TrimLeft(s: string): string {
    if s != "" && IsSpace(s[0]) then TrimLeft(s[1..]) else s
  }

  function TrimRight(s: string): string {
    if s != "" && IsSpace(s[|s| - 1]) then TrimRight(s[..|s| - 1]) else s
  }

  function Trim(s: string): string {
    TrimRight(TrimLeft(s))
  }

  /**
   * The lower case of one character. Beside the Latin capitals, only U+0130 and the Kelvin sign have an
   * ASCII lower case; every other character stays outside ASCII and is left as it is.
   */
  function LowerChar(c: char): char {
    if 'A' <= c <= 'Z' then (c as int + 32) as char
    else if c as int == 0x130 then 'i'
    else if c as int == 0x212A then 'k'
    else c
  }

  function ToLower(s: string): string {
    seq(|s|, i requires 0 <= i < |s| => LowerChar(s[i]))
  }

  /** Text without capitals or outer white space, as feature and action ids are compared. */
  function Normalize(s: string): string {
    ToLower(Trim(s))
  }

  lemma {:induction false} TrimLeftEnds(s: string)
    ensures var r := TrimLeft(s); |r| > 0 ==> !IsSpace(r[0])
    decreases |s|
  {
    if s != "" && IsSpace(s[0]) { TrimLeftEnds(s[1..]); }
  }

  lemma {:induction false} TrimRightEnds(s: string)
    ensures var r := TrimRight(s); r <= s && (|r| > 0 ==> !IsSpace(r[|r| - 1]))
    decreases |s|
  {
    if s != "" && IsSpace(s[|s| - 1]) { TrimRightEnds(s[..|s| - 1]); }
  }

  ghost predicate AllSpaces(s: string) {
    forall i :: 0 <= i < |s| ==> IsSpace(s[i])
  }

  lemma {:induction false} TrimLeftTakes(s: string) returns (n: nat)
    ensures n <= |s| && AllSpaces(s[..n]) && s[n..] == TrimLeft(s)
    decreases |s|
  {
    hide IsSpace;
    n := 0;
    if s != "" && IsSpace(s[0]) {
      var m := TrimLeftTakes(s[1..]);
      n := m + 1;
      assert s[n..] == s[1..][m..];
      var lead := s[..n];
      forall i | 0 <= i < |lead|
        ensures IsSpace(lead[i])
      {
        if i > 0 {
          assert lead[i] == s[1..][..m][i - 1];
        }
      }
    }
  }

  lemma {:induction false} TrimRightTakes(s: string)
    ensures TrimRight(s) <= s && AllSpaces(s[|TrimRight(s)|..])
    decreases |s|
  {
    hide IsSpace;
    if s != "" && IsSpace(s[|s| - 1]) {
      var t, n := s[..|s| - 1], |TrimRight(s)|;
      TrimRightTakes(t);
      forall i | 0 <= i < |s| - n
        ensures IsSpace(s[n..][i])
      {
        if i < |t| - n {
          assert s[n..][i] == t[n..][i];
        }
      }
    }
  }

  /** Trimming takes white space off both ends, all of it and nothing else. */
  lemma TrimExact(s: string) returns (a: nat, b: nat)
    ensures a <= b <= |s| && AllSpaces(s[..a]) && s[a..b] == Trim(s) && AllSpaces(s[b..])
    ensures var t := Trim(s); t != "" ==> !IsSpace(t[0]) && !IsSpace(t[|t| - 1])
  {
    hide IsSpace, TrimLeft, TrimRight, AllSpaces;
    TrimLeftEnds(s);
    TrimRightEnds(TrimLeft(s));
    a := TrimLeftTakes(s);
    TrimRightTakes(TrimLeft(s));
    b := a + |Trim(s)|;
    var rest := TrimLeft(s);
    assert s[a..b] == rest[..|Trim(s)|];
    assert s[b..] == rest[|Trim(s)|..];
  }

  lemma TrimTwice(s: string)
    ensures Trim(Trim(s)) == Trim(s)
  {
    TrimLeftEnds(s);
    TrimRightEnds(TrimLeft(s));
  }

  /** Normalising is done once: a normal text stays as it is. */
  lemma NormalizeTwice(s: string)
    ensures Normalize(Normalize(s)) == Normalize(s)
  {
    TrimLeftEnds(s);
    TrimRightEnds(TrimLeft(s));
    var t := Trim(s);
    var r := ToLower(t);
    assert |r| > 0 ==> !IsSpace(r[0]) && !IsSpace(r[|r| - 1]);
    assert ToLower(r) == r;
  }

  /** The pieces of s between occurrences of sep. */
  function Split(s: string, sep: char): (r: seq<string>)
    ensures |r| > 0
  {
    if sep !in s then [s]
    else
      var k := First(s, sep);
      [s[..k]] + Split(s[k + 1..], sep)
  }

  /** The index of the first sep in s. */
  function First(s: string, sep: char): (k: nat)
    requires sep in s
    ensures k < |s| && s[k] == sep && sep !in s[..k]
  {
    if s[0] == sep then 0
    else
      assert s == [s[0]] + s[1..];
      var k := 1 + First(s[1..], sep);
      assert s[..k] == [s[0]] + s[1..][..k - 1];
      k
  }

  /** Splitting at a separator that does not occur before it. */
  lemma SplitFirst(a: string, b: string, sep: char)
    requires sep !in a
    ensures Split(a + [sep] + b, sep) == [a] + Split(b, sep)
  {
    var s := a + [sep] + b;
    assert s[|a|] == sep;
    var k := First(s, sep);
    assert k <= |a| by { assert sep !in s[..k]; }
    assert k >= |a| by { assert forall i :: 0 <= i < |a| ==> s[i] == a[i]; }
    assert s[..k] == a && s[k + 1..] == b;
  }

  lemma SplitNone(s: string, sep: char)
    requires sep !in s
    ensures Split(s, sep) == [s]
  {
  }

  /** The pieces put back together with the separator between them. */
  function Join(parts: seq<string>, sep: char): string
    requires |parts| > 0
  {
    if |parts| == 1 then parts[0] else parts[0] + [sep] + Join(parts[1..], sep)
  }

  /** Joining undoes splitting, and no piece holds the separator. */
  lemma {:induction false} SplitJoin(s: string, sep: char)
    ensures Join(Split(s, sep), sep) == s
    ensures forall i :: 0 <= i < |Split(s, sep)| ==> sep !in Split(s, sep)[i]
    decreases |s|
  {
    if sep in s {
      var k := First(s, sep);
      SplitJoin(s[k + 1..], sep);
      var parts := Split(s, sep);
      assert parts[1..] == Split(s[k + 1..], sep);
      assert s == s[..k] + [sep] + s[k + 1..];
    }
  }

  lemma JoinTwo(parts: seq<string>, sep: char)
    requires |parts| == 2
    ensures Join(parts, sep) == parts[0] + [sep] + parts[1]
  {
  }

  lemma JoinThree(parts: seq<string>, sep: char)
    requires |parts| == 3
    ensures Join(parts, sep) == parts[0] + [sep] + (parts[1] + [sep] + parts[2])
  {
    JoinTwo(parts[1..], sep);
  }
}
