/** String helpers that mirror the Python `str` methods and regular
    expressions the pipeline uses. */
module Text {
  import opened Seqs

  /** Python's `str.isspace()` set, which is also what `\s` matches in a
      `str` regular expression and what `str.strip()` removes. */
  predicate IsSpace(c: char)
  {
    || c == ' '
    || ('\t' <= c <= '\r')
    || ('\U{1C}' <= c <= '\U{1F}')
    || c == '\U{85}' || c == '\U{A0}' || c == '\U{1680}'
    || ('\U{2000}' <= c <= '\U{200A}')
    || c == '\U{2028}' || c == '\U{2029}' || c == '\U{202F}'
    || c == '\U{205F}' || c == '\U{3000}'
  }

  predicate IsDigit(c: char)
  {
    '0' <= c <= '9'
  }

  /** `str.lstrip()` */
  function TrimLeft(s: string): (r: string)
    ensures |r| <= |s|
    ensures r == s[|s| - |r|..]
    ensures r != [] ==> !IsSpace(r[0])
  {
    if s != [] && IsSpace(s[0]) then TrimLeft(s[1..]) else s
  }

  /** `str.rstrip()` */
  function TrimRight(s: string): (r: string)
    ensures |r| <= |s|
    ensures r == s[..|r|]
    ensures r != [] ==> !IsSpace(r[|r| - 1])
  {
    if s != [] && IsSpace(s[|s| - 1]) then TrimRight(s[..|s| - 1]) else s
  }

  /** `str.strip()` */
  function Strip(s: string): (r: string)
    ensures r != [] ==> !IsSpace(r[0]) && !IsSpace(r[|r| - 1])
  {
    TrimRight(TrimLeft(s))
  }

  /** A string that is empty once stripped, as in `str(v).strip() == ''`. */
  predicate IsBlank(s: string)
  {
    forall i :: 0 <= i < |s| ==> IsSpace(s[i])
  }

  lemma {:induction false} TrimLeftEmptyIffBlank(s: string)
    ensures TrimLeft(s) == [] <==> IsBlank(s)
  {
    if s != [] {
      BlankCons(s);
      if IsSpace(s[0]) {
        TrimLeftEmptyIffBlank(s[1..]);
      }
    }
  }

  lemma {:induction false} BlankCons(s: string)
    requires s != []
    ensures IsBlank(s) <==> IsSpace(s[0]) && IsBlank(s[1..])
  {
    if IsSpace(s[0]) && IsBlank(s[1..]) {
      forall i | 0 < i < |s|
        ensures IsSpace(s[i])
      {
        assert s[i] == s[1..][i - 1];
      }
    }
    if IsBlank(s) {
      forall i | 0 <= i < |s| - 1
        ensures IsSpace(s[1..][i])
      {
        assert s[1..][i] == s[i + 1];
      }
    }
  }

  lemma {:induction false} TrimRightKeepsNonSpace(s: string)
    requires s != [] && !IsSpace(s[0])
    ensures TrimRight(s) != []
  {
    if IsSpace(s[|s| - 1]) {
      TrimRightKeepsNonSpace(s[..|s| - 1]);
    }
  }

  /** `str(v).strip() == ''` exactly when every character is whitespace. */
  lemma {:induction false} StripEmptyIffBlank(s: string)
    ensures Strip(s) == [] <==> IsBlank(s)
  {
    TrimLeftEmptyIffBlank(s);
    if TrimLeft(s) != [] {
      TrimRightKeepsNonSpace(TrimLeft(s));
    }
  }

  /** A string with no leading or trailing whitespace is its own strip. */
  lemma {:induction false} StripNoEdges(s: string)
    requires s != [] ==> !IsSpace(s[0]) && !IsSpace(s[|s| - 1])
    ensures Strip(s) == s
  {
  }

  function LowerChar(c: char): char
  {
    if 'A' <= c <= 'Z' then (c as int - 'A' as int + 'a' as int) as char else c
  }

  function UpperChar(c: char): char
  {
    if 'a' <= c <= 'z' then (c as int - 'a' as int + 'A' as int) as char else c
  }

  /** `str.lower()` on the ASCII letters. */
  function Lower(s: string): (r: string)
    ensures |r| == |s|
    ensures forall i :: 0 <= i < |s| ==> r[i] == LowerChar(s[i])
  {
    if s == [] then [] else [LowerChar(s[0])] + Lower(s[1..])
  }

  /** `str.upper()` on the ASCII letters. */
  function Upper(s: string): (r: string)
    ensures |r| == |s|
    ensures forall i :: 0 <= i < |s| ==> r[i] == UpperChar(s[i])
  {
    if s == [] then [] else [UpperChar(s[0])] + Upper(s[1..])
  }

  /** Does `pat` occur in `s` at position `i`? */
  predicate OccursAt(s: string, pat: string, i: nat)
  {
    i + |pat| <= |s| && s[i..i + |pat|] == pat
  }

  /** Python's `pat in s`. */
  predicate Contains(s: string, pat: string)
  {
    exists i: nat | i <= |s| :: OccursAt(s, pat, i)
  }

  /** `str.split(" ")[-1]`: everything after the last single space, or the
      whole string when it has none. */
  function LastToken(s: string): (r: string)
    ensures |r| <= |s| && r == s[|s| - |r|..]
    ensures ' ' !in r
    ensures |r| < |s| ==> s[|s| - |r| - 1] == ' '
  {
    if s == [] then []
    else if s[|s| - 1] == ' ' then []
    else LastToken(s[..|s| - 1]) + [s[|s| - 1]]
  }

  /** The last token of a text ending in " " + `k`, for `k` without a space,
      is `k`. */
  lemma {:induction false} LastTokenAfterSpace(p: string, k: string)
    requires ' ' !in k
    ensures LastToken(p + " " + k) == k
  {
    if k == [] {
      assert (p + " " + k)[|p + " " + k| - 1] == ' ';
    } else {
      var s := p + " " + k;
      assert s[..|s| - 1] == p + " " + k[..|k| - 1];
      LastTokenAfterSpace(p, k[..|k| - 1]);
      assert k == k[..|k| - 1] + [k[|k| - 1]];
    }
  }

  /** `re.sub(r'\s+', ' ', s)`: every maximal run of whitespace becomes a
      single space. */
  function CollapseSpaces(s: string): (r: string)
    ensures |r| <= |s|
  {
    if s == [] then []
    else if IsSpace(s[0]) then " " + CollapseSpaces(TrimLeft(s[1..]))
    else [s[0]] + CollapseSpaces(s[1..])
  }

  /** The only whitespace is a plain space, never two in a row. */
  predicate SingleSpaced(s: string)
  {
    && (forall i :: 0 <= i < |s| && IsSpace(s[i]) ==> s[i] == ' ')
    && (forall i :: 0 <= i < |s| - 1 && s[i] == ' ' ==> s[i + 1] != ' ')
  }

  lemma {:induction false} CollapseFirst(s: string)
    requires s != [] && !IsSpace(s[0])
    ensures CollapseSpaces(s) != [] && CollapseSpaces(s)[0] == s[0]
  {
  }

  /** The result of collapsing has no whitespace run left. */
  lemma {:induction false} CollapseSingleSpaced(s: string)
    ensures SingleSpaced(CollapseSpaces(s))
  {
    if s == [] {
    } else if IsSpace(s[0]) {
      var t := TrimLeft(s[1..]);
      CollapseSingleSpaced(t);
      if t != [] { CollapseFirst(t); }
    } else {
      CollapseSingleSpaced(s[1..]);
    }
  }

  /** A text without whitespace runs is left as it is. */
  lemma {:induction false} CollapseClean(s: string)
    requires SingleSpaced(s)
    ensures CollapseSpaces(s) == s
  {
    if s != [] {
      var tail := s[1..];
      assert SingleSpaced(tail) by {
        forall i | 0 <= i < |tail| - 1 && tail[i] == ' ' ensures tail[i + 1] != ' ' {
          assert s[i + 1] == ' ';
        }
      }
      if IsSpace(s[0]) {
        if tail != [] {
          assert s[0] == ' ' && s[1] != ' ' && tail[0] == s[1];
        }
        assert TrimLeft(tail) == tail;
      }
      CollapseClean(tail);
    }
  }

  /** Collapsing twice is collapsing once. */
  lemma {:induction false} CollapseIdempotent(s: string)
    ensures CollapseSpaces(CollapseSpaces(s)) == CollapseSpaces(s)
  {
    CollapseSingleSpaced(s);
    CollapseClean(CollapseSpaces(s));
  }

  lemma {:induction false} TrimLeftConcat(a: string, b: string)
    requires a != [] && !IsSpace(a[|a| - 1])
    ensures TrimLeft(a) != [] && TrimLeft(a)[|TrimLeft(a)| - 1] == a[|a| - 1]
    ensures TrimLeft(a + b) == TrimLeft(a) + b
  {
    if IsSpace(a[0]) {
      assert (a + b)[1..] == a[1..] + b;
      assert a[1..][|a[1..]| - 1] == a[|a| - 1];
      TrimLeftConcat(a[1..], b);
    }
  }

  /** A run boundary splits the collapse: text ending in a non-space
      collapses independently of what follows. */
  lemma {:induction false} CollapseConcat(a: string, b: string)
    requires a != [] && !IsSpace(a[|a| - 1])
    ensures CollapseSpaces(a + b) == CollapseSpaces(a) + CollapseSpaces(b)
    decreases |a|, 1
  {
    if IsSpace(a[0]) {
      CollapseConcatRun(a, b);
    } else {
      CollapseConcatWord(a, b);
    }
  }

  lemma {:induction false} CollapseConcatRun(a: string, b: string)
    requires a != [] && IsSpace(a[0]) && !IsSpace(a[|a| - 1])
    ensures CollapseSpaces(a + b) == CollapseSpaces(a) + CollapseSpaces(b)
    decreases |a|, 0
  {
    var x := a + b;
    assert x != [] && x[0] == a[0];
    assert x[1..] == a[1..] + b;
    var t := TrimLeft(a[1..]);
    assert a[1..] != [] && a[1..][|a[1..]| - 1] == a[|a| - 1];
    TrimLeftConcat(a[1..], b);
    assert |t| < |a|;
    CollapseConcat(t, b);
    assert CollapseSpaces(x) == " " + CollapseSpaces(t + b);
    assert CollapseSpaces(a) == " " + CollapseSpaces(t);
    Assoc(" ", CollapseSpaces(t), CollapseSpaces(b));
  }

  lemma {:induction false} CollapseConcatWord(a: string, b: string)
    requires a != [] && !IsSpace(a[0]) && !IsSpace(a[|a| - 1])
    ensures CollapseSpaces(a + b) == CollapseSpaces(a) + CollapseSpaces(b)
    decreases |a|, 0
  {
    if |a| == 1 {
      CollapseConcatChar(a, b);
    } else {
      var x := a + b;
      assert x != [] && x[0] == a[0];
      assert x[1..] == a[1..] + b;
      CollapseConcat(a[1..], b);
      assert CollapseSpaces(x) == [a[0]] + CollapseSpaces(a[1..] + b);
      Assoc([a[0]], CollapseSpaces(a[1..]), CollapseSpaces(b));
    }
  }

  lemma {:induction false} CollapseConcatChar(a: string, b: string)
    requires |a| == 1 && !IsSpace(a[0])
    ensures CollapseSpaces(a + b) == CollapseSpaces(a) + CollapseSpaces(b)
  {
    var x := a + b;
    assert x != [] && x[0] == a[0];
    assert x[1..] == b;
    assert CollapseSpaces(a) == [a[0]] + CollapseSpaces([]);
  }

  /** A run of whitespace in front of a word becomes one space. */
  lemma {:induction false} CollapseRun(w: string, b: string)
    requires w != [] && IsBlank(w)
    requires b != [] && !IsSpace(b[0])
    ensures CollapseSpaces(w + b) == " " + CollapseSpaces(b)
  {
    TrimLeftOfBlank(w[1..], b);
    assert (w + b)[1..] == w[1..] + b;
  }

  lemma {:induction false} TrimLeftOfBlank(w: string, b: string)
    requires IsBlank(w)
    requires b != [] && !IsSpace(b[0])
    ensures TrimLeft(w + b) == b
  {
    if w == [] {
      assert w + b == b;
    } else {
      assert (w + b)[1..] == w[1..] + b;
      TrimLeftOfBlank(w[1..], b);
    }
  }

  /** `str.replace(' / ', '/')`: left to right, without overlaps. */
  function JoinSlashes(s: string): (r: string)
    ensures |r| <= |s|
  {
    if |s| < 3 then s
    else if s[..3] == " / " then "/" + JoinSlashes(s[3..])
    else [s[0]] + JoinSlashes(s[1..])
  }

  /** Without a slash there is nothing to replace. */
  lemma {:induction false} JoinNoSlash(s: string)
    requires '/' !in s
    ensures JoinSlashes(s) == s
  {
    if |s| >= 3 {
      assert s[..3][1] == s[1];
      JoinNoSlash(s[1..]);
    }
  }

  /** The one separator between two slash-free texts is joined up. */
  lemma {:induction false} JoinAroundSlash(a: string, b: string)
    requires '/' !in a && '/' !in b
    ensures JoinSlashes(a + " / " + b) == a + "/" + b
  {
    if a == [] {
      JoinLeadingSlash(b);
    } else {
      JoinAroundSlash(a[1..], b);
      JoinAroundSlashCons(a, b);
    }
  }

  lemma {:induction false} JoinLeadingSlash(b: string)
    requires '/' !in b
    ensures JoinSlashes([] + " / " + b) == [] + "/" + b
  {
    var s := [] + " / " + b;
    assert s[..3] == " / " && s[3..] == b;
    JoinNoSlash(b);
  }

  /** A first character that is not a separator is kept. */
  lemma {:induction false} JoinAroundSlashCons(a: string, b: string)
    requires a != [] && '/' !in a
    requires JoinSlashes(a[1..] + " / " + b) == a[1..] + "/" + b
    ensures JoinSlashes(a + " / " + b) == a + "/" + b
  {
    var s := a + " / " + b;
    assert s[..3][1] != '/' by {
      if |a| >= 2 { assert s[1] == a[1]; } else { assert s[1] == ' '; }
    }
    assert s[1..] == a[1..] + " / " + b;
    assert JoinSlashes(s) == [a[0]] + JoinSlashes(s[1..]);
    assert [a[0]] + (a[1..] + "/" + b) == a + "/" + b;
  }

  /** Changing case never turns a character into whitespace or back. */
  lemma {:induction false} UpperKeepsSpace(c: char)
    ensures IsSpace(UpperChar(c)) == IsSpace(c)
  {
  }

  lemma {:induction false} TrimLeftUpper(s: string)
    ensures TrimLeft(Upper(s)) == Upper(TrimLeft(s))
  {
    if s != [] {
      UpperKeepsSpace(s[0]);
      assert Upper(s)[1..] == Upper(s[1..]);
      TrimLeftUpper(s[1..]);
    }
  }

  lemma {:induction false} TrimRightUpper(s: string)
    ensures TrimRight(Upper(s)) == Upper(TrimRight(s))
  {
    if s != [] {
      UpperKeepsSpace(s[|s| - 1]);
      assert Upper(s)[..|s| - 1] == Upper(s[..|s| - 1]);
      TrimRightUpper(s[..|s| - 1]);
    }
  }

  /** Stripping and upper-casing can be done in either order. */
  lemma {:induction false} StripUpper(s: string)
    ensures Strip(Upper(s)) == Upper(Strip(s))
  {
    TrimLeftUpper(s);
    TrimRightUpper(TrimLeft(s));
  }

  /** Lower-casing forgets an earlier upper-casing. */
  lemma {:induction false} LowerUpper(s: string)
    ensures Lower(Upper(s)) == Lower(s)
  {
  }

  /** Upper-casing forgets an earlier lower-casing. */
  lemma {:induction false} UpperLower(s: string)
    ensures Upper(Lower(s)) == Upper(s)
  {
  }

  /** `Lower(s)` is `t` when they agree character by character. */
  lemma {:induction false} LowerPointwise(s: string, t: string)
    requires |s| == |t| && forall i :: 0 <= i < |s| ==> LowerChar(s[i]) == t[i]
    ensures Lower(s) == t
  {
  }

  /** `Upper(s)` is `t` when they agree character by character. */
  lemma {:induction false} UpperPointwise(s: string, t: string)
    requires |s| == |t| && forall i :: 0 <= i < |s| ==> UpperChar(s[i]) == t[i]
    ensures Upper(s) == t
  {
  }

  /** A pattern whose first character is absent does not occur. */
  lemma {:induction false} NotContainsFirst(s: string, pat: string)
    requires pat != [] && pat[0] !in s
    ensures !Contains(s, pat)
  {
    forall i: nat | i <= |s| ensures !OccursAt(s, pat, i) {
      if i + |pat| <= |s| {
        assert s[i..i + |pat|][0] == s[i];
      }
    }
  }


  /** Appending one character to a text before `lstrip`. */
  lemma {:induction false} TrimLeftAppend(s: string, c: char)
    ensures TrimLeft(s + [c]) == if TrimLeft(s) == [] && IsSpace(c) then [] else TrimLeft(s) + [c]
  {
    if s == [] {
      assert s + [c] == [c];
      assert [c][1..] == [];
    } else {
      assert (s + [c])[1..] == s[1..] + [c];
      TrimLeftAppend(s[1..], c);
    }
  }

  /** Whitespace added at either end does not survive `strip`. */
  lemma {:induction false} StripPadded(s: string, c: char)
    requires IsSpace(c)
    ensures Strip([c] + s) == Strip(s)
    ensures Strip(s + [c]) == Strip(s)
  {
    assert ([c] + s)[1..] == s;
    TrimLeftAppend(s, c);
    var l := TrimLeft(s);
    if l != [] {
      assert (l + [c])[..|l + [c]| - 1] == l;
    }
  }

  /** None of `strip`, `lower`, the collapse and the slash join lengthen
      a text. */
  lemma {:induction false} StripShortens(s: string)
    ensures |Strip(s)| <= |s|
  {
  }


  /** A word followed by anything collapses to itself followed by the
      collapse of the rest. */
  lemma {:induction false} CollapseWord(w: string, rest: string)
    requires w != [] && forall i :: 0 <= i < |w| ==> !IsSpace(w[i])
    ensures CollapseSpaces(w + rest) == w + CollapseSpaces(rest)
  {
    CollapseConcat(w, rest);
    CollapseClean(w);
  }

  lemma {:induction false} LowerConcat(a: string, b: string)
    ensures Lower(a + b) == Lower(a) + Lower(b)
  {
    LowerPointwise(a + b, Lower(a) + Lower(b));
  }


  /** A non-empty text without whitespace. */
  predicate IsWord(w: string)
  {
    w != [] && forall i :: 0 <= i < |w| ==> !IsSpace(w[i])
  }

  /** A non-empty run of whitespace. */
  predicate IsRun(w: string)
  {
    w != [] && IsBlank(w)
  }

  /** A word, a whitespace run and a text starting with a non-space
      collapse to the word, one space and the collapsed text. */
  lemma {:induction false} CollapseWordRun(a: string, w: string, rest: string)
    requires IsWord(a) && IsRun(w) && rest != [] && !IsSpace(rest[0])
    ensures CollapseSpaces(a + (w + rest)) == a + (" " + CollapseSpaces(rest))
  {
    CollapseWord(a, w + rest);
    CollapseRun(w, rest);
  }


  /** Python's `<` on strings: code point by code point, a proper prefix
      first. */
  predicate StrLess(a: string, b: string)
  {
    if a == [] then b != []
    else b != [] && (if a[0] == b[0] then StrLess(a[1..], b[1..]) else a[0] < b[0])
  }

  lemma {:induction false} StrLessIrreflexive(a: string)
    ensures !StrLess(a, a)
  {
    if a != [] { StrLessIrreflexive(a[1..]); }
  }

  lemma {:induction false} StrLessTransitive(a: string, b: string, c: string)
    requires StrLess(a, b) && StrLess(b, c)
    ensures StrLess(a, c)
  {
    if a != [] && a[0] == b[0] && b[0] == c[0] {
      StrLessTransitive(a[1..], b[1..], c[1..]);
    }
  }

  /** Two different strings are ordered one way or the other. */
  lemma {:induction false} StrLessTotal(a: string, b: string)
    requires a != b
    ensures StrLess(a, b) || StrLess(b, a)
  {
    if a != [] && b != [] && a[0] == b[0] {
      assert a == [a[0]] + a[1..] && b == [b[0]] + b[1..];
      StrLessTotal(a[1..], b[1..]);
    }
  }

  /** A common prefix does not change the comparison. */
  lemma {:induction false} StrLessCommonPrefix(p: string, a: string, b: string)
    ensures StrLess(p + a, p + b) == StrLess(a, b)
  {
    if p != [] {
      assert (p + a)[1..] == p[1..] + a && (p + b)[1..] == p[1..] + b;
      StrLessCommonPrefix(p[1..], a, b);
    } else {
      assert p + a == a && p + b == b;
    }
  }

}
