/** String predicates the source evaluates with JavaScript built-ins: `trim`, the `\s`
    character class, ASCII `toLowerCase`, `includes`, and the two regular expressions
    `^[^\s@]+@[^\s@]+\.[^\s@]+$` (e-mail) and `^[a-z_]+$` (permission names). */
module Text {

  import Seqs

  /** White space and line terminators: the characters JavaScript's `\s` matches and
      `String.prototype.trim` removes (ECMAScript WhiteSpace and LineTerminator). */
  predicate IsWhiteSpace(c: char)
  {
    || c == ' ' || c == '\t' || c == '\n' || c == '\r'
    || c == '\U{000B}' || c == '\U{000C}' || c == '\U{00A0}' || c == '\U{1680}'
    || ('\U{2000}' <= c <= '\U{200A}')
    || c == '\U{2028}' || c == '\U{2029}' || c == '\U{202F}' || c == '\U{205F}'
    || c == '\U{3000}' || c == '\U{FEFF}'
  }

  predicate AllWhiteSpace(s: string)
  {
    forall i :: 0 <= i < |s| ==> IsWhiteSpace(s[i])
  }

  function TrimStart(s: string): (r: string)
    ensures |r| <= |s| && r == s[|s| - |r|..]
    ensures AllWhiteSpace(s[..|s| - |r|])
    ensures r == [] || !IsWhiteSpace(r[0])
  {
    if s != [] && IsWhiteSpace(s[0]) then
      var r := TrimStart(s[1..]);
      assert s[..|s| - |r|] == [s[0]] + s[1..][..|s| - 1 - |r|];
      r
    else s
  }

  function TrimEnd(s: string): (r: string)
    ensures |r| <= |s| && r == s[..|r|]
    ensures AllWhiteSpace(s[|r|..])
    ensures r == [] || !IsWhiteSpace(r[|r| - 1])
  {
    if s != [] && IsWhiteSpace(s[|s| - 1]) then
      var r := TrimEnd(s[..|s| - 1]);
      assert s[|r|..] == s[..|s| - 1][|r|..] + [s[|s| - 1]];
      r
    else s
  }

  /** `r` is `s[i..i + |r|]` and everything of `s` outside that slice is white space. */
  ghost predicate IsTrimmedSlice(s: string, r: string, i: int)
  {
    0 <= i <= i + |r| <= |s| && r == s[i..i + |r|]
    && AllWhiteSpace(s[..i]) && AllWhiteSpace(s[i + |r|..])
  }

  /** Cutting white space from the front and then from the back leaves a trimmed slice. */
  lemma CutBothEnds(s: string, t: string, r: string)
    requires |t| <= |s| && t == s[|s| - |t|..] && AllWhiteSpace(s[..|s| - |t|])
    requires |r| <= |t| && r == t[..|r|] && AllWhiteSpace(t[|r|..])
    ensures IsTrimmedSlice(s, r, |s| - |t|)
  {
    var i := |s| - |t|;
    assert r == s[i..i + |r|];
    assert s[i + |r|..] == t[|r|..];
  }

  /** `s.trim()`: `s` without its leading and trailing white space. The result is a
      contiguous slice of `s`, everything cut away is white space, and the result
      neither starts nor ends with white space. */
  function Trim(s: string): (r: string)
    ensures exists i :: IsTrimmedSlice(s, r, i)
    ensures r == [] || (!IsWhiteSpace(r[0]) && !IsWhiteSpace(r[|r| - 1]))
  {
    var t := TrimStart(s);
    var r := TrimEnd(t);
    CutBothEnds(s, t, r);
    assert r != [] ==> r[0] == t[0];
    r
  }

  /** Trimming leaves alone a string with no white space at either end. */
  lemma TrimUnpadded(s: string)
    requires s == [] || (!IsWhiteSpace(s[0]) && !IsWhiteSpace(s[|s| - 1]))
    ensures Trim(s) == s
  {
    assert TrimStart(s) == s;
    assert TrimEnd(s) == s;
  }

  /** A character that is not white space survives trimming. */
  lemma TrimKeepsVisible(s: string, k: int)
    requires 0 <= k < |s| && !IsWhiteSpace(s[k])
    ensures s[k] in Trim(s)
  {
    var r := Trim(s);
    var i :| IsTrimmedSlice(s, r, i);
    forall j | 0 <= j < i
      ensures IsWhiteSpace(s[j])
    {
      assert s[..i][j] == s[j];
    }
    forall j | i + |r| <= j < |s|
      ensures IsWhiteSpace(s[j])
    {
      assert s[i + |r|..][j - i - |r|] == s[j];
    }
    assert i <= k < i + |r|;
    assert r[k - i] == s[k];
  }

  /** `!s.trim()` in the forms: a string is blank exactly when it is all white space. */
  lemma BlankIffAllWhiteSpace(s: string)
    ensures Trim(s) == [] <==> AllWhiteSpace(s)
  {
    var r := Trim(s);
    var i :| IsTrimmedSlice(s, r, i);
    if r == [] {
      assert forall k :: 0 <= k < |s| ==> (k < i ==> s[k] == s[..i][k]) && (k >= i ==> s[k] == s[i..][k - i]);
    } else {
      assert s[i] == r[0];
    }
  }

  /** ASCII `toLowerCase` of one character; other characters are left alone. */
  function LowerChar(c: char): (d: char)
  {
    if 'A' <= c <= 'Z' then (c as int - 'A' as int + 'a' as int) as char else c
  }

  function ToLower(s: string): (r: string)
    ensures |r| == |s|
    ensures forall i :: 0 <= i < |s| ==> r[i] == LowerChar(s[i])
    ensures forall i :: 0 <= i < |r| ==> !('A' <= r[i] <= 'Z')
  {
    Seqs.Map(s, LowerChar)
  }

  /** Lower-casing twice is lower-casing once. */
  lemma ToLowerIdempotent(s: string)
    ensures ToLower(ToLower(s)) == ToLower(s)
  {
  }

  /** `p` is a prefix of `s`. */
  predicate StartsWith(s: string, p: string)
  {
    |p| <= |s| && s[..|p|] == p
  }

  /** `hay.includes(needle)`, computed by sliding the needle along the string. */
  function Includes(hay: string, needle: string): (b: bool)
    decreases |hay|
  {
    if StartsWith(hay, needle) then true
    else if hay == [] then false
    else Includes(hay[1..], needle)
  }

  /** The declarative meaning of `includes`: `needle` occurs at some position of `hay`. */
  ghost predicate OccursAt(hay: string, needle: string, i: int)
  {
    0 <= i && i + |needle| <= |hay| && hay[i..i + |needle|] == needle
  }

  /** `Includes` finds the needle exactly when it occurs somewhere. */
  lemma {:induction false} IncludesIffOccurs(hay: string, needle: string)
    ensures Includes(hay, needle) <==> exists i :: OccursAt(hay, needle, i)
    decreases |hay|
  {
    if StartsWith(hay, needle) {
      assert OccursAt(hay, needle, 0);
    } else if hay == [] {
      assert needle != [];
    } else {
      IncludesIffOccurs(hay[1..], needle);
      if exists i :: OccursAt(hay[1..], needle, i) {
        var i :| OccursAt(hay[1..], needle, i);
        assert hay[1..][i..i + |needle|] == hay[i + 1..i + 1 + |needle|];
        assert OccursAt(hay, needle, i + 1);
      }
      if exists i :: OccursAt(hay, needle, i) {
        var i :| OccursAt(hay, needle, i);
        if i == 0 {
          assert false;
        } else {
          assert hay[1..][i - 1..i - 1 + |needle|] == hay[i..i + |needle|];
          assert OccursAt(hay[1..], needle, i - 1);
        }
      }
    }
  }

  /** The empty string is included in every string. */
  lemma IncludesEmpty(hay: string)
    ensures Includes(hay, [])
  {
  }

  /** One character of the class `[^\s@]`. */
  predicate IsAddressChar(c: char)
  {
    !IsWhiteSpace(c) && c != '@'
  }

  /** A non-empty run of `[^\s@]`. */
  predicate IsAddressRun(s: string)
  {
    |s| > 0 && forall i :: 0 <= i < |s| ==> IsAddressChar(s[i])
  }

  /** What the regular expression `^[^\s@]+@[^\s@]+\.[^\s@]+$` accepts, written as the
      split points the regex engine would find: local part, `@`, domain label, `.`, tail. */
  ghost predicate MatchesEmailPattern(s: string)
  {
    exists at, dot ::
      0 < at < dot < |s| - 1 && at + 1 < dot && s[at] == '@' && s[dot] == '.'
      && IsAddressRun(s[..at]) && IsAddressRun(s[at + 1..dot]) && IsAddressRun(s[dot + 1..])
  }

  /** Index of the first occurrence of `c` in `s`, or `|s|`. */
  function IndexOf(s: string, c: char): (k: nat)
    ensures k <= |s|
    ensures k < |s| ==> s[k] == c
    ensures forall i :: 0 <= i < k ==> s[i] != c
  {
    if s == [] then 0 else if s[0] == c then 0 else 1 + IndexOf(s[1..], c)
  }

  /** The e-mail test of the user form, as a single left-to-right scan: split at the
      first `@`, both sides are runs of `[^\s@]`, and the domain has a `.` strictly
      inside it. */
  function IsEmail(s: string): (b: bool)
  {
    var at := IndexOf(s, '@');
    at < |s| && IsAddressRun(s[..at]) && IsAddressRun(s[at + 1..])
    && at + 2 <= |s| - 1 && '.' in s[at + 2..|s| - 1]
  }

  /** The scanner accepts only strings the regular expression matches. */
  lemma IsEmailSound(s: string)
    requires IsEmail(s)
    ensures MatchesEmailPattern(s)
  {
    var at := IndexOf(s, '@');
    var inner := s[at + 2..|s| - 1];
    var k :| 0 <= k < |inner| && inner[k] == '.';
    var dot := at + 2 + k;
    assert s[dot] == '.';
    var domain := s[at + 1..];
    assert s[at + 1..dot] == domain[..dot - at - 1];
    assert s[dot + 1..] == domain[dot - at..];
    assert IsAddressRun(s[at + 1..dot]);
    assert IsAddressRun(s[dot + 1..]);
  }

  /** An `@` preceded only by address characters is the first `@`. */
  lemma FirstAt(s: string, a: nat)
    requires a < |s| && s[a] == '@' && IsAddressRun(s[..a])
    ensures IndexOf(s, '@') == a
  {
    assert forall i :: 0 <= i < a ==> s[i] == s[..a][i];
  }

  /** Two address runs joined by a `.` form one address run. */
  lemma JoinedRun(s: string, lo: nat, d: nat)
    requires lo < d < |s| - 1 && s[d] == '.'
    requires IsAddressRun(s[lo..d]) && IsAddressRun(s[d + 1..])
    ensures IsAddressRun(s[lo..])
  {
    forall i | lo <= i < |s|
      ensures IsAddressChar(s[i])
    {
      if i < d {
        assert s[i] == s[lo..d][i - lo];
      } else if i > d {
        assert s[i] == s[d + 1..][i - d - 1];
      }
    }
    assert forall j :: 0 <= j < |s[lo..]| ==> s[lo..][j] == s[lo + j];
  }

  /** Every string the regular expression matches passes the scanner. */
  lemma IsEmailComplete(s: string)
    requires MatchesEmailPattern(s)
    ensures IsEmail(s)
  {
    var a, d :| 0 < a < d < |s| - 1 && a + 1 < d && s[a] == '@' && s[d] == '.'
      && IsAddressRun(s[..a]) && IsAddressRun(s[a + 1..d]) && IsAddressRun(s[d + 1..]);
    FirstAt(s, a);
    JoinedRun(s, a + 1, d);
    assert s[a + 2..|s| - 1][d - a - 2] == '.';
  }

  /** The scanner accepts exactly the strings the regular expression matches. */
  lemma IsEmailIffPattern(s: string)
    ensures IsEmail(s) <==> MatchesEmailPattern(s)
  {
    if IsEmail(s) {
      IsEmailSound(s);
    }
    if MatchesEmailPattern(s) {
      IsEmailComplete(s);
    }
  }

  /** What the user form's e-mail check guarantees about an accepted address: exactly one
      `@`, not first, no white space anywhere, and a `.` after the `@` with text on both
      sides of it. */
  lemma AcceptedEmailShape(s: string)
    requires IsEmail(s)
    ensures exists at :: 0 < at < |s| && s[at] == '@'
              && (forall i :: 0 <= i < |s| && i != at ==> s[i] != '@')
              && (exists dot :: at + 1 < dot < |s| - 1 && s[dot] == '.')
    ensures forall i :: 0 <= i < |s| ==> !IsWhiteSpace(s[i])
  {
    var at := IndexOf(s, '@');
    assert forall i :: 0 <= i < at ==> s[i] == s[..at][i];
    assert forall i :: at < i < |s| ==> s[i] == s[at + 1..][i - at - 1];
    var k :| 0 <= k < |s[at + 2..|s| - 1]| && s[at + 2..|s| - 1][k] == '.';
    assert s[at + 2 + k] == '.';
  }

  /** `/^[a-z_]+$/.test(name)`: a non-empty string of lower-case ASCII letters and `_`. */
  predicate IsPermissionName(s: string)
  {
    |s| > 0 && forall i :: 0 <= i < |s| ==> ('a' <= s[i] <= 'z' || s[i] == '_')
  }
}
