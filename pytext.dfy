/**
 * The string operations of Python that the ingestion code applies:
 * `str.isspace`, `str.strip`, `str.upper`, the `in` substring test and
 * `str.replace('][', ',')`.
 */
module PyText {

  /** `c.isspace()`: the characters Python classifies as whitespace. */
  predicate IsSpace(c: char) {
    c == ' ' || c == '\t' || c == '\n' || c == '\U{0b}' || c == '\U{0c}' || c == '\r'
    || c == '\U{1c}' || c == '\U{1d}' || c == '\U{1e}' || c == '\U{1f}' || c == '\U{85}'
    || c == '\U{a0}' || c == '\U{1680}' || c == '\U{2000}' || c == '\U{2001}' || c == '\U{2002}'
    || c == '\U{2003}' || c == '\U{2004}' || c == '\U{2005}' || c == '\U{2006}'
    || c == '\U{2007}' || c == '\U{2008}' || c == '\U{2009}' || c == '\U{200a}'
    || c == '\U{2028}' || c == '\U{2029}' || c == '\U{202f}' || c == '\U{205f}'
    || c == '\U{3000}'
  }

  /** `s.lstrip()`: the longest suffix of `s` that does not start with whitespace. */
  function StripLeft(s: string): string {
    if s != [] && IsSpace(s[0]) then StripLeft(s[1..]) else s
  }

  /** `lstrip` removes a leading run of whitespace and nothing else. */
  lemma {:induction false} StripLeftTrims(s: string)
    ensures var r := StripLeft(s);
      |r| <= |s| && r == s[|s| - |r|..] && (r == [] || !IsSpace(r[0]))
      && forall i :: 0 <= i < |s| - |r| ==> IsSpace(s[i])
  {
    if s != [] && IsSpace(s[0]) {
      var tail := s[1..];
      StripLeftTrims(tail);
      var r := StripLeft(tail);
      assert StripLeft(s) == r;
      assert tail[|tail| - |r|..] == s[|s| - |r|..];
      forall i | 0 <= i < |s| - |r| ensures IsSpace(s[i]) {
        if i > 0 {
          assert s[i] == tail[i - 1];
        }
      }
    }
  }

  /** `s.rstrip()`: the longest prefix of `s` that does not end with whitespace. */
  function StripRight(s: string): string {
    if s != [] && IsSpace(s[|s| - 1]) then StripRight(s[..|s| - 1]) else s
  }

  /** `rstrip` removes a trailing run of whitespace and nothing else. */
  lemma {:induction false} StripRightTrims(s: string)
    ensures var r := StripRight(s);
      r <= s && (r == [] || !IsSpace(r[|r| - 1]))
      && forall i :: |r| <= i < |s| ==> IsSpace(s[i])
  {
    if s != [] && IsSpace(s[|s| - 1]) {
      var init := s[..|s| - 1];
      StripRightTrims(init);
      var r := StripRight(init);
      assert StripRight(s) == r;
      forall i | |r| <= i < |s| ensures IsSpace(s[i]) {
        if i < |s| - 1 {
          assert s[i] == init[i];
        }
      }
    }
  }

  /** `s.strip()`. */
  function Strip(s: string): string {
    StripRight(StripLeft(s))
  }

  /** A prefix of `s` that ends in a non-space and leaves only spaces behind is
      the one `rstrip` returns. */
  lemma StripRightUnique(s: string, r: string)
    requires r <= s
    requires r == [] || !IsSpace(r[|r| - 1])
    requires forall i :: |r| <= i < |s| ==> IsSpace(s[i])
    ensures StripRight(s) == r
  {
    StripRightTrims(s);
  }

  /** Upper-casing of one character as `str.upper` does it for ASCII and
      Latin-1 (where `ß` becomes `SS`); other characters are kept. */
  function UpperChar(c: char): string {
    if 'a' <= c <= 'z' then [(c as int - 32) as char]
    else if ('\U{e0}' <= c <= '\U{fe}') && c != '\U{f7}' then [(c as int - 32) as char]
    else if c == '\U{df}' then "SS"
    else if c == '\U{ff}' then "\U{178}"
    else if c == '\U{b5}' then "\U{39c}"
    else [c]
  }

  /** `s.upper()`, character by character. */
  function Upper(s: string): string {
    if s == [] then [] else UpperChar(s[0]) + Upper(s[1..])
  }

  lemma {:induction false} UpperAppend(a: string, b: string)
    ensures Upper(a + b) == Upper(a) + Upper(b)
  {
    if a != [] {
      assert (a + b)[0] == a[0] && (a + b)[1..] == a[1..] + b;
      UpperAppend(a[1..], b);
      calc {
        Upper(a + b);
        UpperChar(a[0]) + Upper(a[1..] + b);
        UpperChar(a[0]) + (Upper(a[1..]) + Upper(b));
        (UpperChar(a[0]) + Upper(a[1..])) + Upper(b);
      }
    } else {
      assert a + b == b;
    }
  }

  /** Upper-casing an upper-cased string changes nothing. */
  lemma {:induction false} UpperIdempotent(s: string)
    ensures Upper(Upper(s)) == Upper(s)
  {
    if s != [] {
      UpperAppend(UpperChar(s[0]), Upper(s[1..]));
      UpperIdempotent(s[1..]);
      var u := UpperChar(s[0]);
      if |u| == 1 {
        assert Upper(u) == UpperChar(u[0]) + Upper(u[1..]);
      } else {
        assert u == "SS";
        assert Upper(u) == UpperChar('S') + Upper("S");
        assert Upper("S") == UpperChar('S') + Upper([]);
      }
    }
  }

  /** `w` occurs in `t` at position `p`. */
  predicate OccursAt(t: string, p: nat, w: string) {
    p + |w| <= |t| && t[p..p + |w|] == w
  }

  /** Python's `p in s` for strings. */
  predicate Contains(s: string, p: string) {
    exists i: nat | i <= |s| :: OccursAt(s, i, p)
  }

  lemma ContainsAppend(a: string, b: string, p: string)
    ensures Contains(a, p) ==> Contains(a + b, p)
    ensures Contains(b, p) ==> Contains(a + b, p)
  {
    if Contains(a, p) {
      var i: nat :| i <= |a| && OccursAt(a, i, p);
      assert (a + b)[i..i + |p|] == a[i..i + |p|];
      assert OccursAt(a + b, i, p);
    }
    if Contains(b, p) {
      var i: nat :| i <= |b| && OccursAt(b, i, p);
      assert (a + b)[|a| + i..|a| + i + |p|] == b[i..i + |p|];
      assert OccursAt(a + b, |a| + i, p);
    }
  }

  /** Upper-casing keeps substrings: if `p` occurs in `s`, then `upper(p)`
      occurs in `upper(s)`. */
  lemma UpperKeepsSubstring(s: string, p: string)
    requires Contains(s, p)
    ensures Contains(Upper(s), Upper(p))
  {
    var i: nat :| i <= |s| && OccursAt(s, i, p);
    var pre, post := s[..i], s[i + |p|..];
    assert s == pre + p + post;
    UpperAppend(pre + p, post);
    UpperAppend(pre, p);
    var u := Upper(s);
    assert u == Upper(pre) + Upper(p) + Upper(post);
    assert u[|Upper(pre)|..|Upper(pre)| + |Upper(p)|] == Upper(p);
    assert OccursAt(u, |Upper(pre)|, Upper(p));
  }

  /** An occurrence in `[c] + s` away from the front is one in `s`. */
  lemma OccursAfterFirst(c: char, s: string, i: nat, w: string)
    ensures OccursAt([c] + s, i + 1, w) ==> OccursAt(s, i, w)
  {
    if OccursAt([c] + s, i + 1, w) {
      assert ([c] + s)[i + 1..i + 1 + |w|] == s[i..i + |w|];
    }
  }

  /** `][` occurs at the front of `x` exactly when `x` starts with `]` and `[`. */
  lemma PairAtFront(x: string)
    ensures OccursAt(x, 0, "][") <==> |x| >= 2 && x[0] == ']' && x[1] == '['
  {
    if |x| >= 2 {
      assert x[0..2] == [x[0], x[1]];
    }
  }

  /** `s.replace('][', ',')`: every `][`, taken left to right without
      overlap, becomes `,`. */
  function ReplaceBracketPairs(s: string): string {
    if "][" <= s then "," + ReplaceBracketPairs(s[2..])
    else if s == [] then []
    else [s[0]] + ReplaceBracketPairs(s[1..])
  }

  /** The repaired text is no longer than the original, empty exactly when
      the original is, starts as the original does (with `,` in place of a
      leading `][`), and contains no `][`. */
  lemma {:induction false} ReplaceBracketPairsSpec(s: string)
    ensures var r := ReplaceBracketPairs(s);
      |r| <= |s| && (r == [] <==> s == [])
      && (r != [] ==> r[0] == (if "][" <= s then ',' else s[0]))
      && !Contains(r, "][")
  {
    if "][" <= s {
      var rest := ReplaceBracketPairs(s[2..]);
      ReplaceBracketPairsSpec(s[2..]);
      NoPairAfter(',', rest);
    } else if s != [] {
      var rest := ReplaceBracketPairs(s[1..]);
      ReplaceBracketPairsSpec(s[1..]);
      if s[0] == ']' && rest != [] {
        assert rest[0] != '[' by {
          if "][" <= s[1..] {
            assert rest[0] == ',';
          } else {
            assert rest[0] == s[1];
            assert s[..2] == [s[0], s[1]];
          }
        }
      }
      NoPairAfter(s[0], rest);
    }
  }

  /** Putting one character in front of a text without `][` creates none,
      unless the character is `]` and the text starts with `[`. */
  lemma NoPairAfter(c: char, s: string)
    requires !Contains(s, "][")
    requires c == ']' ==> s == [] || s[0] != '['
    ensures !Contains([c] + s, "][")
  {
    forall i: nat | i <= |[c] + s| ensures !OccursAt([c] + s, i, "][") {
      if i == 0 {
        PairAtFront([c] + s);
      } else {
        OccursAfterFirst(c, s, i - 1, "][");
      }
    }
  }

  /** A text without `][` is left unchanged by the repair. */
  lemma {:induction false} ReplaceWithoutPairs(s: string)
    requires !Contains(s, "][")
    ensures ReplaceBracketPairs(s) == s
  {
    if s != [] {
      if "][" <= s {
        assert OccursAt(s, 0, "][");
      }
      if Contains(s[1..], "][") {
        var i: nat :| i <= |s[1..]| && OccursAt(s[1..], i, "][");
        assert s[i + 1..i + 3] == s[1..][i..i + 2];
        assert OccursAt(s, i + 1, "][");
      }
      ReplaceWithoutPairs(s[1..]);
    }
  }

  /** An empty array followed by another array loses the second array's
      opening bracket to the repair: `[][` becomes `[,`, which no JSON parser
      accepts. */
  lemma RepairAfterEmptyArray(s: string)
    ensures ReplaceBracketPairs("[][" + s) == "[," + ReplaceBracketPairs(s)
  {
    var t := "[][" + s;
    assert t[0] == '[' && t != [];
    assert !("][" <= t);
    assert t[1..] == "][" + s;
    assert "][" <= t[1..];
    assert t[1..][2..] == s;
  }
}
