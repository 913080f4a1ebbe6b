/** The JavaScript string operations the core relies on: `startsWith`,
    `split(' ')[1]`, `toLowerCase`, `trim` and `includes`. */
module Text {
  import opened Base

  /** `s.startsWith(prefix)` */
  predicate StartsWith(s: string, prefix: string)
  {
    |prefix| <= |s| && s[..|prefix|] == prefix
  }

  /** `s.split(' ')[1]`: the piece between the first and the second space
      (or the end of `s`); undefined (None) when `s` holds no space. */
  function SplitSecond(s: string): (r: Option<string>)
    ensures r.None? <==> ' ' !in s
    ensures r.Some? ==> ' ' !in r.value
  {
    match IndexOf(s, ' ')
    case None => None
    case Some(i) =>
      var rest := s[i + 1..];
      match IndexOf(rest, ' ')
      case None => Some(rest)
      case Some(j) => Some(rest[..j])
  }

  /** Joining a space-free word and a space-free token with a space, and
      splitting again, gives the token back — whatever follows a further
      space. */
  lemma {:induction false} SplitSecondOfJoined(word: string, token: string, rest: string)
    requires ' ' !in word && ' ' !in token
    requires rest == [] || rest[0] == ' '
    ensures SplitSecond(word + " " + token + rest) == Some(token)
  {
    var t := word + " " + token + rest;
    assert t[..|word|] == word;
    IndexOfFirst(t, ' ', |word|);
    var after := t[|word| + 1..];
    assert after == token + rest;
    if rest == [] {
      assert after == token;
    } else {
      assert after[..|token|] == token;
      IndexOfFirst(after, ' ', |token|);
    }
  }

  /** `toLowerCase` on one character (ASCII letters only). */
  function LowerChar(c: char): char
  {
    if 'A' <= c <= 'Z' then (c as int + 32) as char else c
  }

  /** `s.toLowerCase()` */
  function Lower(s: string): (r: string)
    ensures |r| == |s|
    ensures forall i :: 0 <= i < |s| ==> r[i] == LowerChar(s[i])
  {
    if s == [] then [] else [LowerChar(s[0])] + Lower(s[1..])
  }

  /** Lower-casing twice is lower-casing once. */
  lemma LowerIdempotent(s: string)
    ensures Lower(Lower(s)) == Lower(s)
  {
    assert forall i :: 0 <= i < |s| ==> LowerChar(LowerChar(s[i])) == LowerChar(s[i]);
  }

  /** The characters `String.prototype.trim` removes: the white space and
      line terminators of ECMAScript (tab, vertical tab, form feed, the
      space separators, the byte order mark, LF, CR, LS and PS). */
  predicate IsWhiteSpace(c: char)
  {
    c == '\t' || c == '\n' || c == '\U{000B}' || c == '\U{000C}' || c == '\r' || c == ' '
    || c == '\U{00A0}' || c == '\U{1680}' || ('\U{2000}' <= c <= '\U{200A}')
    || c == '\U{2028}' || c == '\U{2029}' || c == '\U{202F}' || c == '\U{205F}'
    || c == '\U{3000}' || c == '\U{FEFF}'
  }

  function TrimStart(s: string): (r: string)
    ensures |r| <= |s| && r == s[|s| - |r|..]
    ensures r != [] ==> !IsWhiteSpace(r[0])
    ensures forall i :: 0 <= i < |s| - |r| ==> IsWhiteSpace(s[i])
  {
    if s != [] && IsWhiteSpace(s[0]) then TrimStart(s[1..]) else s
  }

  function TrimEnd(s: string): (r: string)
    ensures |r| <= |s| && r == s[..|r|]
    ensures r != [] ==> !IsWhiteSpace(r[|r| - 1])
    ensures forall i :: |r| <= i < |s| ==> IsWhiteSpace(s[i])
  {
    if s != [] && IsWhiteSpace(s[|s| - 1]) then TrimEnd(s[..|s| - 1]) else s
  }

  /** `r` is the part of `s` from `k` on, with only white space around it. */
  predicate TrimmedAt(s: string, r: string, k: int)
  {
    0 <= k <= |s| - |r| && r == s[k..k + |r|]
    && (forall i :: 0 <= i < k ==> IsWhiteSpace(s[i]))
    && (forall i :: k + |r| <= i < |s| ==> IsWhiteSpace(s[i]))
  }

  /** A prefix `r` of a suffix `t` of `s`, with only white space around it
      in `s`, is trimmed out of `s`. */
  lemma PrefixOfSuffix(s: string, t: string, r: string)
    requires |t| <= |s| && t == s[|s| - |t|..]
    requires |r| <= |t| && r == t[..|r|]
    requires forall i :: 0 <= i < |s| - |t| ==> IsWhiteSpace(s[i])
    requires forall i :: |r| <= i < |t| ==> IsWhiteSpace(t[i])
    ensures TrimmedAt(s, r, |s| - |t|)
  {
    var k := |s| - |t|;
    assert r == s[k..k + |r|] by {
      forall i | 0 <= i < |r| ensures r[i] == s[k + i] {
        assert r[i] == t[i] && t[i] == s[k + i];
      }
    }
    forall i | k + |r| <= i < |s| ensures IsWhiteSpace(s[i]) {
      assert s[i] == t[i - k];
    }
  }

  /** `s.trim()`: the part of `s` left after dropping the white space at
      both ends. */
  function Trim(s: string): (r: string)
    ensures exists k :: TrimmedAt(s, r, k)
    ensures r != [] ==> !IsWhiteSpace(r[0]) && !IsWhiteSpace(r[|r| - 1])
  {
    var t := TrimStart(s);
    var r := TrimEnd(t);
    PrefixOfSuffix(s, t, r);
    assert r != [] ==> r[0] == t[0];
    r
  }

  /** `!query.trim()` holds exactly when every character is white space. */
  lemma {:induction false} TrimEmptyIffBlank(s: string)
    ensures Trim(s) == [] <==> forall i :: 0 <= i < |s| ==> IsWhiteSpace(s[i])
  {
    var t := TrimStart(s);
    if Trim(s) == [] {
      assert t == [];
    } else {
      var r := Trim(s);
      assert r[0] == t[0];
      assert !IsWhiteSpace(s[|s| - |t|]);
    }
  }

  predicate OccursAt(haystack: string, needle: string, i: nat)
  {
    i + |needle| <= |haystack| && haystack[i..i + |needle|] == needle
  }

  /** `haystack.includes(needle)` */
  function Includes(haystack: string, needle: string): (r: bool)
    ensures r <==> exists i: nat :: OccursAt(haystack, needle, i)
    decreases |haystack|
  {
    if StartsWith(haystack, needle) then
      assert OccursAt(haystack, needle, 0);
      true
    else if haystack == [] then
      assert forall i: nat :: !OccursAt(haystack, needle, i) by {
        forall i: nat ensures !OccursAt(haystack, needle, i) {
          if i == 0 { assert !StartsWith(haystack, needle); }
        }
      }
      false
    else
      var rest := Includes(haystack[1..], needle);
      assert forall i: nat :: OccursAt(haystack[1..], needle, i) <==> OccursAt(haystack, needle, i + 1) by {
        forall i: nat ensures OccursAt(haystack[1..], needle, i) <==> OccursAt(haystack, needle, i + 1) {
          if i + 1 + |needle| <= |haystack| {
            assert haystack[1..][i..i + |needle|] == haystack[i + 1..i + 1 + |needle|];
          }
        }
      }
      assert !OccursAt(haystack, needle, 0);
      assert (exists i: nat :: OccursAt(haystack, needle, i)) ==> exists i: nat :: OccursAt(haystack[1..], needle, i) by {
        if exists i: nat :: OccursAt(haystack, needle, i) {
          var i: nat :| OccursAt(haystack, needle, i);
          assert i != 0;
          assert OccursAt(haystack[1..], needle, i - 1);
        }
      }
      rest
  }
}
