/**
 * Character and string operations of the JavaScript runtime that the parser
 * relies on: the `\s` class and `trim()`, the `/\s+/g` collapse, the
 * canonical identity key, `toLowerCase`, `includes`, `slice` and `join`.
 */
module Text {

  /** ECMAScript WhiteSpace and LineTerminator code points: what `\s` matches and `trim()` strips. */
  predicate IsSpace(c: char)
  {
    || c == '\t' || c == '\n' || c == '\U{000B}' || c == '\U{000C}' || c == '\r'
    || c == ' ' || c == '\U{00A0}' || c == '\U{1680}'
    || ('\U{2000}' <= c <= '\U{200A}')
    || c == '\U{2028}' || c == '\U{2029}' || c == '\U{202F}' || c == '\U{205F}'
    || c == '\U{3000}' || c == '\U{FEFF}'
  }

  predicate IsDigit(c: char)
  {
    '0' <= c <= '9'
  }

  /** Lower-casing, restricted to the ASCII letters. */
  function Lower(c: char): char
  {
    if 'A' <= c <= 'Z' then (c as int + 32) as char else c
  }

  /** Upper-casing, restricted to the ASCII letters. */
  function Upper(c: char): char
  {
    if 'a' <= c <= 'z' then (c as int - 32) as char else c
  }

  function LowerAll(s: string): (r: string)
    ensures |r| == |s|
    ensures forall i :: 0 <= i < |s| ==> r[i] == Lower(s[i])
  {
    seq(|s|, i requires 0 <= i < |s| => Lower(s[i]))
  }

  predicate AllSpaces(s: string)
  {
    forall i :: 0 <= i < |s| ==> IsSpace(s[i])
  }

  /** Strips the leading white space: what is left is a suffix that starts with a non-space. */
  function TrimStart(s: string): (r: string)
    ensures |r| <= |s| && r == s[|s| - |r|..]
    ensures r == [] || !IsSpace(r[0])
  {
    if s != [] && IsSpace(s[0]) then TrimStart(s[1..]) else s
  }

  /** What `TrimStart` strips is white space only. */
  lemma {:induction false} TrimStartStripsSpaces(s: string)
    ensures AllSpaces(s[..|s| - |TrimStart(s)|])
    decreases |s|
  {
    if s != [] && IsSpace(s[0]) {
      TrimStartStripsSpaces(s[1..]);
      var k := |s| - |TrimStart(s)|;
      forall i | 0 <= i < k ensures IsSpace(s[..k][i]) {
        if i > 0 {
          assert s[..k][i] == s[1..][..k - 1][i - 1];
        }
      }
    }
  }

  /** Strips the trailing white space: what is left is a prefix that ends with a non-space. */
  function TrimEnd(s: string): (r: string)
    ensures |r| <= |s| && r == s[..|r|]
    ensures r == [] || !IsSpace(r[|r| - 1])
  {
    if s != [] && IsSpace(s[|s| - 1]) then TrimEnd(s[..|s| - 1]) else s
  }

  /** What `TrimEnd` strips is white space only. */
  lemma {:induction false} TrimEndStripsSpaces(s: string)
    ensures AllSpaces(s[|TrimEnd(s)|..])
    decreases |s|
  {
    if s != [] && IsSpace(s[|s| - 1]) {
      TrimEndStripsSpaces(s[..|s| - 1]);
      var k := |TrimEnd(s)|;
      forall i | 0 <= i < |s| - k ensures IsSpace(s[k..][i]) {
        if i < |s| - 1 - k {
          assert s[k..][i] == s[..|s| - 1][k..][i];
        }
      }
    }
  }

  /** `String.prototype.trim`. */
  function Trim(s: string): (r: string)
    ensures r == [] || (!IsSpace(r[0]) && !IsSpace(r[|r| - 1]))
    ensures |r| <= |s|
  {
    TrimEnd(TrimStart(s))
  }

  /** Every white-space character is a plain space, and no two of them are adjacent. */
  ghost predicate SingleSpaced(s: string)
  {
    && (forall i :: 0 <= i < |s| && IsSpace(s[i]) ==> s[i] == ' ')
    && (forall i, j :: 0 <= i < j < |s| && j == i + 1 ==> !(IsSpace(s[i]) && IsSpace(s[j])))
  }

  /** `s.replace(/\s+/g, " ")`: each maximal white-space run becomes one space. */
  function Collapse(s: string): (r: string)
    ensures |r| <= |s| && (r == [] <==> s == [])
    ensures r != [] ==> (IsSpace(r[0]) <==> IsSpace(s[0]))
    decreases |s|
  {
    if s == [] then []
    else if IsSpace(s[0]) then [' '] + Collapse(TrimStart(s[1..]))
    else [s[0]] + Collapse(s[1..])
  }

  /** Collapsing leaves every white-space run as one plain space. */
  lemma {:induction false} CollapseSingleSpaced(s: string)
    ensures SingleSpaced(Collapse(s))
    decreases |s|
  {
    if s != [] {
      if IsSpace(s[0]) {
        var rest := TrimStart(s[1..]);
        CollapseSingleSpaced(rest);
        CollapseSpaceStep(s);
        SingleSpacedCons(' ', Collapse(rest));
      } else {
        CollapseSingleSpaced(s[1..]);
        CollapseCons(s);
        SingleSpacedCons(s[0], Collapse(s[1..]));
      }
    }
  }

  /** Collapsing keeps a trailing non-space, and turns a trailing white-space run into a space. */
  lemma {:induction false} CollapseLast(s: string)
    requires s != []
    ensures var r := Collapse(s); r[|r| - 1] == LastAfterCollapse(s[|s| - 1])
    decreases |s|
  {
    if IsSpace(s[0]) {
      var rest := TrimStart(s[1..]);
      if rest != [] {
        CollapseLast(rest);
        CollapseSpaceStep(s);
        TrimStartLast(s[1..]);
      } else {
        CollapseOfSpaces(s);
      }
    } else if |s| > 1 {
      CollapseLast(s[1..]);
      CollapseLastAfterChar(s);
    }
  }

  function LastAfterCollapse(c: char): char
  {
    if IsSpace(c) then ' ' else c
  }

  /** A text made of one white-space run collapses to a single space. */
  lemma CollapseOfSpaces(s: string)
    requires s != [] && IsSpace(s[0]) && TrimStart(s[1..]) == []
    ensures Collapse(s) == [' '] && IsSpace(s[|s| - 1])
  {
    CollapseSpaceStep(s);
    TrimStartStripsSpaces(s[1..]);
    assert s[1..][..|s| - 1] == s[1..];
    if |s| > 1 {
      assert s[|s| - 1] == s[1..][|s| - 2];
    }
  }

  /** Trimming the front of a text that is not all white space keeps its last character. */
  lemma TrimStartLast(t: string)
    requires TrimStart(t) != []
    ensures var rest := TrimStart(t); rest[|rest| - 1] == t[|t| - 1]
  {
    var rest := TrimStart(t);
    assert rest == t[|t| - |rest|..];
  }

  /** Behind a leading non-space, the collapse ends as the collapse of the tail does. */
  lemma CollapseLastAfterChar(s: string)
    requires |s| > 1 && !IsSpace(s[0])
    ensures var r := Collapse(s); var q := Collapse(s[1..]);
      r[|r| - 1] == q[|q| - 1] && s[1..][|s| - 2] == s[|s| - 1]
  {
    CollapseCons(s);
  }

  /** A character in front of a single-spaced text keeps it single-spaced unless it makes a second space. */
  lemma SingleSpacedCons(c: char, t: string)
    requires SingleSpaced(t)
    requires IsSpace(c) ==> c == ' ' && (t != [] ==> !IsSpace(t[0]))
    ensures SingleSpaced([c] + t)
  {
    var s := [c] + t;
    forall i | 0 <= i < |s| && IsSpace(s[i]) ensures s[i] == ' ' {
      if i > 0 {
        assert s[i] == t[i - 1];
      }
    }
    forall i, j | 0 <= i < j < |s| && j == i + 1 ensures !(IsSpace(s[i]) && IsSpace(s[j])) {
      assert s[j] == t[j - 1];
      if i > 0 {
        assert s[i] == t[i - 1];
      }
    }
  }

  /** The tail of a single-spaced text is single-spaced. */
  lemma SingleSpacedTail(s: string)
    requires s != [] && SingleSpaced(s)
    ensures SingleSpaced(s[1..])
  {
    var t := s[1..];
    forall i | 0 <= i < |t| && IsSpace(t[i]) ensures t[i] == ' ' {
      assert t[i] == s[i + 1];
    }
    forall i, j | 0 <= i < j < |t| && j == i + 1 ensures !(IsSpace(t[i]) && IsSpace(t[j])) {
      assert t[i] == s[i + 1] && t[j] == s[j + 1];
    }
  }

  /** Leading white space followed by a non-space is stripped entirely. */
  lemma {:induction false} TrimStartSpacesThen(w: string, b: string)
    requires AllSpaces(w) && (b == [] || !IsSpace(b[0]))
    ensures TrimStart(w + b) == b
    decreases |w|
  {
    if w == [] {
      assert w + b == b;
    } else {
      assert (w + b)[1..] == w[1..] + b;
      TrimStartSpacesThen(w[1..], b);
    }
  }

  /** Text after a non-space does not change where `TrimStart` stops. */
  lemma {:induction false} TrimStartAppend(a: string, x: string)
    requires a != [] && !IsSpace(a[|a| - 1])
    ensures TrimStart(a + x) == TrimStart(a) + x
    decreases |a|
  {
    assert (a + x)[0] == a[0];
    if IsSpace(a[0]) {
      assert (a + x)[1..] == a[1..] + x;
      TrimStartAppend(a[1..], x);
    }
  }

  /** Collapsing splits at any point that follows a non-space. */
  lemma {:induction false} CollapseAppend(a: string, x: string)
    requires a == [] || !IsSpace(a[|a| - 1])
    ensures Collapse(a + x) == Collapse(a) + Collapse(x)
    decreases |a|
  {
    if a == [] {
      assert a + x == x;
    } else if IsSpace(a[0]) {
      var t := TrimStart(a[1..]);
      TrimStartEndsLikeText(a);
      CollapseAppend(t, x);
      CollapseAppendSpace(a, x);
    } else {
      assert a[1..] == [] || !IsSpace(a[1..][|a[1..]| - 1]);
      CollapseAppend(a[1..], x);
      CollapseAppendChar(a, x);
    }
  }

  /** The step of `CollapseAppend` for a text that starts with white space. */
  lemma CollapseAppendSpace(a: string, x: string)
    requires a != [] && IsSpace(a[0]) && !IsSpace(a[|a| - 1])
    requires Collapse(TrimStart(a[1..]) + x) == Collapse(TrimStart(a[1..])) + Collapse(x)
    ensures Collapse(a + x) == Collapse(a) + Collapse(x)
  {
    CollapseHeadSpace(a, x);
    AppendAssoc([' '], Collapse(TrimStart(a[1..])), Collapse(x));
  }

  lemma AppendAssoc(p: string, q: string, r: string)
    ensures p + (q + r) == (p + q) + r
  {
  }

  /** The step of `CollapseAppend` for a text that starts with a non-space. */
  lemma CollapseAppendChar(a: string, x: string)
    requires a != [] && !IsSpace(a[0])
    requires Collapse(a[1..] + x) == Collapse(a[1..]) + Collapse(x)
    ensures Collapse(a + x) == Collapse(a) + Collapse(x)
  {
    CollapseHeadChar(a, x);
  }

  lemma CollapseHeadSpace(a: string, x: string)
    requires a != [] && IsSpace(a[0]) && !IsSpace(a[|a| - 1])
    ensures Collapse(a + x) == [' '] + Collapse(TrimStart(a[1..]) + x)
    ensures Collapse(a) == [' '] + Collapse(TrimStart(a[1..]))
  {
    var s := a + x;
    assert s[0] == a[0] && s[1..] == a[1..] + x;
    TrimStartAppend(a[1..], x);
  }

  lemma CollapseHeadChar(a: string, x: string)
    requires a != [] && !IsSpace(a[0])
    ensures Collapse(a + x) == [a[0]] + Collapse(a[1..] + x)
  {
    var s := a + x;
    assert s[0] == a[0] && s[1..] == a[1..] + x;
  }

  /** Behind a leading space, a text ending in a non-space still has its last character after `TrimStart`. */
  lemma TrimStartEndsLikeText(a: string)
    requires a != [] && IsSpace(a[0]) && !IsSpace(a[|a| - 1])
    ensures var t := TrimStart(a[1..]); t != [] && !IsSpace(t[|t| - 1]) && |t| < |a|
  {
    var tail := a[1..];
    assert tail[|tail| - 1] == a[|a| - 1];
    TrimStartStripsSpaces(tail);
    if TrimStart(tail) != [] {
      TrimStartLast(tail);
    }
  }

  /** A white-space run followed by a non-space (or by nothing) collapses to one space. */
  lemma CollapseSpaceRun(w: string, b: string)
    requires w != [] && AllSpaces(w) && (b == [] || !IsSpace(b[0]))
    ensures Collapse(w + b) == [' '] + Collapse(b)
  {
    assert (w + b)[0] == w[0];
    assert (w + b)[1..] == w[1..] + b;
    TrimStartSpacesThen(w[1..], b);
  }

  /**
   * A white-space run between two words becomes exactly one space: it
   * neither disappears nor survives as several characters.
   */
  lemma CollapseBetweenWords(a: string, w: string, b: string)
    requires a != [] && !IsSpace(a[|a| - 1])
    requires w != [] && AllSpaces(w)
    requires b == [] || !IsSpace(b[0])
    ensures Collapse(a + w + b) == Collapse(a) + " " + Collapse(b)
  {
    CollapseSpaceRun(w, b);
    assert a + w + b == a + (w + b);
    CollapseAfterWord(a, w + b, Collapse(b));
  }

  /** Behind a word, a tail whose collapse opens with one space keeps that space. */
  lemma CollapseAfterWord(a: string, t: string, cb: string)
    requires a != [] && !IsSpace(a[|a| - 1])
    requires Collapse(t) == [' '] + cb
    ensures Collapse(a + t) == Collapse(a) + " " + cb
  {
    CollapseAppend(a, t);
    assert Collapse(a) + " " + cb == Collapse(a) + ([' '] + cb);
  }



  /** Normalizing two words separated by white space joins their normal forms with a single space. */
  lemma NormalizeBetweenWords(a: string, w: string, b: string)
    requires a != [] && !IsSpace(a[0]) && !IsSpace(a[|a| - 1])
    requires w != [] && AllSpaces(w)
    requires b != [] && !IsSpace(b[0]) && !IsSpace(b[|b| - 1])
    ensures Normalize(a + w + b) == Normalize(a) + " " + Normalize(b)
  {
    var s := a + w + b;
    assert s[0] == a[0] && s[|s| - 1] == b[|b| - 1];
    assert TrimStart(s) == s && TrimEnd(s) == s;
    assert Trim(a) == a && Trim(b) == b;
    CollapseBetweenWords(a, w, b);
  }

  /** A display name as the detector produces it: trimmed, each white-space run a single space. */
  ghost predicate Normalized(s: string)
  {
    && (s == [] || (!IsSpace(s[0]) && !IsSpace(s[|s| - 1])))
    && SingleSpaced(s)
  }

  /** `normalizeModelName`: `name.trim().replace(/\s+/g, " ")`. */
  function Normalize(s: string): (r: string)
    ensures Normalized(r)
    ensures Normalized(s) ==> r == s
  {
    var t := Trim(s);
    CollapseTrimmed(t);
    NormalizedFixed(s);
    Collapse(t)
  }

  /** A text that is already normalized survives trimming and collapsing unchanged. */
  lemma NormalizedFixed(s: string)
    ensures Normalized(s) ==> Collapse(Trim(s)) == s
  {
    if Normalized(s) {
      assert TrimStart(s) == s;
      assert TrimEnd(s) == s;
      CollapseKeepsSingleSpaced(s);
    }
  }

  /** The characters of a text other than white space, in order. */
  function NonSpaces(s: string): string
    decreases |s|
  {
    if s == [] then [] else (if IsSpace(s[0]) then [] else [s[0]]) + NonSpaces(s[1..])
  }

  lemma {:induction false} NonSpacesConcat(a: string, b: string)
    ensures NonSpaces(a + b) == NonSpaces(a) + NonSpaces(b)
    decreases |a|
  {
    if a == [] {
      assert a + b == b;
    } else {
      assert (a + b)[0] == a[0];
      assert (a + b)[1..] == a[1..] + b;
      NonSpacesConcat(a[1..], b);
    }
  }

  lemma {:induction false} NonSpacesOfSpaces(s: string)
    requires AllSpaces(s)
    ensures NonSpaces(s) == []
    decreases |s|
  {
    if s != [] {
      NonSpacesOfSpaces(s[1..]);
    }
  }

  lemma NonSpacesOfTrimStart(s: string)
    ensures NonSpaces(TrimStart(s)) == NonSpaces(s)
  {
    var t := TrimStart(s);
    TrimStartStripsSpaces(s);
    assert s == s[..|s| - |t|] + t;
    NonSpacesConcat(s[..|s| - |t|], t);
    NonSpacesOfSpaces(s[..|s| - |t|]);
  }

  lemma NonSpacesOfTrimEnd(s: string)
    ensures NonSpaces(TrimEnd(s)) == NonSpaces(s)
  {
    var u := TrimEnd(s);
    TrimEndStripsSpaces(s);
    assert s == u + s[|u|..];
    NonSpacesConcat(u, s[|u|..]);
    NonSpacesOfSpaces(s[|u|..]);
  }

  lemma {:induction false} NonSpacesOfCollapse(s: string)
    ensures NonSpaces(Collapse(s)) == NonSpaces(s)
    decreases |s|
  {
    if s != [] {
      if IsSpace(s[0]) {
        var rest := TrimStart(s[1..]);
        NonSpacesOfCollapse(rest);
        NonSpacesOfTrimStart(s[1..]);
        NonSpacesConcat([' '], Collapse(rest));
      } else {
        NonSpacesOfCollapse(s[1..]);
        CollapseCons(s);
        NonSpacesConcat([s[0]], Collapse(s[1..]));
      }
    }
  }

  /**
   * Normalizing only touches white space: every other character of the
   * name is kept, in its order.
   */
  lemma NormalizeKeepsNonSpaces(s: string)
    ensures NonSpaces(Normalize(s)) == NonSpaces(s)
  {
    NonSpacesOfTrimStart(s);
    NonSpacesOfTrimEnd(TrimStart(s));
    NonSpacesOfCollapse(Trim(s));
  }

  /** Collapsing a trimmed text gives a normalized one. */
  lemma CollapseTrimmed(t: string)
    requires t == [] || (!IsSpace(t[0]) && !IsSpace(t[|t| - 1]))
    ensures Normalized(Collapse(t))
  {
    CollapseSingleSpaced(t);
    if t != [] {
      var r := Collapse(t);
      CollapseLast(t);
      assert r[|r| - 1] == t[|t| - 1];
    }
  }

  /** A normalized name is left unchanged by collapsing. */
  lemma {:induction false} CollapseKeepsSingleSpaced(s: string)
    requires SingleSpaced(s)
    ensures Collapse(s) == s
    decreases |s|
  {
    if s != [] {
      SingleSpacedTail(s);
      CollapseKeepsSingleSpaced(s[1..]);
      if IsSpace(s[0]) {
        SpaceLeadsSingle(s);
        CollapseSpaceCons(s);
      } else {
        CollapseCons(s);
      }
      assert s == [s[0]] + s[1..];
    }
  }

  lemma CollapseCons(s: string)
    requires s != [] && !IsSpace(s[0])
    ensures Collapse(s) == [s[0]] + Collapse(s[1..])
  {
  }

  /** In a single-spaced text a leading space is a plain space followed by a non-space. */
  lemma SpaceLeadsSingle(s: string)
    requires s != [] && SingleSpaced(s) && IsSpace(s[0])
    ensures s[0] == ' ' && TrimStart(s[1..]) == s[1..]
  {
    if |s| > 1 {
      assert !(IsSpace(s[0]) && IsSpace(s[1]));
      assert s[1..][0] == s[1];
    }
  }

  lemma CollapseSpaceCons(s: string)
    requires s != [] && IsSpace(s[0]) && TrimStart(s[1..]) == s[1..]
    ensures Collapse(s) == [' '] + Collapse(s[1..])
  {
  }

  /** Normalizing is idempotent: a detected name normalizes to itself. */
  lemma NormalizeIdempotent(s: string)
    ensures Normalize(Normalize(s)) == Normalize(s)
  {
    var n := Normalize(s);
    assert TrimStart(n) == n;
    assert TrimEnd(n) == n;
    CollapseKeepsSingleSpaced(n);
  }

  predicate DroppedFromKey(c: char)
  {
    IsSpace(c) || c == '-'
  }

  lemma LowerAllTail(s: string)
    requires s != []
    ensures LowerAll(s)[0] == Lower(s[0]) && LowerAll(s)[1..] == LowerAll(s[1..])
  {
  }

  /** The characters of a text other than white space and hyphens, in order. */
  function KeyChars(s: string): string
    decreases |s|
  {
    if s == [] then [] else (if DroppedFromKey(s[0]) then [] else [s[0]]) + KeyChars(s[1..])
  }

  /**
   * The canonical identity key: `name.toLowerCase().replace(/[\s-]+/g, "")`,
   * that is the lower-cased name with its white space and hyphens removed.
   */
  function CanonicalKey(s: string): (r: string)
    ensures |r| <= |s|
    ensures forall i :: 0 <= i < |r| ==> !DroppedFromKey(r[i]) && !('A' <= r[i] <= 'Z')
    ensures r == KeyChars(LowerAll(s))
  {
    if s == [] then []
    else
      LowerAllTail(s);
      (if DroppedFromKey(Lower(s[0])) then [] else [Lower(s[0])]) + CanonicalKey(s[1..])
  }

  lemma {:induction false} CanonicalKeyConcat(a: string, b: string)
    ensures CanonicalKey(a + b) == CanonicalKey(a) + CanonicalKey(b)
    decreases |a|
  {
    if a == [] {
      assert a + b == b;
    } else {
      assert (a + b)[0] == a[0];
      assert (a + b)[1..] == a[1..] + b;
      CanonicalKeyConcat(a[1..], b);
    }
  }

  lemma {:induction false} CanonicalKeyOfSpaces(s: string)
    requires AllSpaces(s)
    ensures CanonicalKey(s) == []
    decreases |s|
  {
    if s != [] {
      CanonicalKeyOfSpaces(s[1..]);
    }
  }

  lemma {:induction false} CanonicalKeyOfCollapse(s: string)
    ensures CanonicalKey(Collapse(s)) == CanonicalKey(s)
    decreases |s|
  {
    if s != [] {
      if IsSpace(s[0]) {
        var rest := TrimStart(s[1..]);
        CanonicalKeyOfCollapse(rest);
        CanonicalKeySkipsSpaces(s);
        CollapseSpaceStep(s);
        CanonicalKeyCons(' ', Collapse(rest));
      } else {
        CanonicalKeyOfCollapse(s[1..]);
        CollapseCons(s);
        CanonicalKeyCons(s[0], Collapse(s[1..]));
        CanonicalKeyCons(s[0], s[1..]);
        assert s == [s[0]] + s[1..];
      }
    }
  }

  lemma CanonicalKeyCons(c: char, t: string)
    ensures CanonicalKey([c] + t) == (if DroppedFromKey(Lower(c)) then [] else [Lower(c)]) + CanonicalKey(t)
  {
    assert ([c] + t)[0] == c;
    assert ([c] + t)[1..] == t;
  }

  lemma CollapseSpaceStep(s: string)
    requires s != [] && IsSpace(s[0])
    ensures Collapse(s) == [' '] + Collapse(TrimStart(s[1..]))
  {
  }

  /** A leading white-space run contributes nothing to the key. */
  lemma CanonicalKeySkipsSpaces(s: string)
    requires s != [] && IsSpace(s[0])
    ensures CanonicalKey(s) == CanonicalKey(TrimStart(s[1..]))
  {
    CanonicalKeyOfTrimStart(s[1..]);
    CanonicalKeyCons(s[0], s[1..]);
    assert s == [s[0]] + s[1..];
  }

  /** Stripping the leading white space leaves the key unchanged. */
  lemma CanonicalKeyOfTrimStart(s: string)
    ensures CanonicalKey(TrimStart(s)) == CanonicalKey(s)
  {
    var t := TrimStart(s);
    TrimStartStripsSpaces(s);
    assert s == s[..|s| - |t|] + t;
    CanonicalKeyConcat(s[..|s| - |t|], t);
    CanonicalKeyOfSpaces(s[..|s| - |t|]);
  }

  lemma CanonicalKeyOfTrimEnd(s: string)
    ensures CanonicalKey(TrimEnd(s)) == CanonicalKey(s)
  {
    var u := TrimEnd(s);
    TrimEndStripsSpaces(s);
    assert s == u + s[|u|..];
    CanonicalKeyConcat(u, s[|u|..]);
    CanonicalKeyOfSpaces(s[|u|..]);
  }

  /**
   * Normalizing a name never changes its key, so keying the normalized
   * name (as both deduplication passes do) identifies the same mentions
   * as keying the raw capture would.
   */
  lemma CanonicalKeyOfNormalize(s: string)
    ensures CanonicalKey(Normalize(s)) == CanonicalKey(s)
  {
    CanonicalKeyOfTrimStart(s);
    CanonicalKeyOfTrimEnd(TrimStart(s));
    CanonicalKeyOfCollapse(Trim(s));
  }

  predicate OccursAt(s: string, sub: string, i: int)
  {
    0 <= i && i + |sub| <= |s| && s[i..i + |sub|] == sub
  }

  /** `String.prototype.includes`, scanning from the front. */
  function Includes(s: string, sub: string): (r: bool)
    ensures r <==> exists i :: OccursAt(s, sub, i)
    decreases |s|
  {
    if |sub| > |s| then false
    else if s[..|sub|] == sub then
      assert OccursAt(s, sub, 0);
      true
    else if s == [] then false
    else
      var r := Includes(s[1..], sub);
      assert forall i :: OccursAt(s[1..], sub, i) ==> OccursAt(s, sub, i + 1);
      assert forall i :: OccursAt(s, sub, i) && i > 0 ==> OccursAt(s[1..], sub, i - 1);
      r
  }

  /** "instruction" contains "instruct", so the first of the two instruction keywords is subsumed by the second. */
  lemma InstructionImpliesInstruct(s: string)
    ensures Includes(s, "instruction") ==> Includes(s, "instruct")
  {
    if Includes(s, "instruction") {
      var i :| OccursAt(s, "instruction", i);
      assert s[i..i + 8] == s[i..i + 11][..8];
      assert OccursAt(s, "instruct", i);
    }
  }

  /** `String.prototype.slice(start, end)` for non-negative arguments: both are clamped to the length, and an empty result when they cross. */
  function Slice(s: string, start: nat, end: nat): (r: string)
    ensures start <= end <= |s| ==> r == s[start..end]
    ensures end <= start ==> r == []
    ensures start <= |s| <= end ==> r == s[start..]
    ensures |r| <= |s|
  {
    var lo := if start < |s| then start else |s|;
    var hi := if end < |s| then end else |s|;
    if lo <= hi then s[lo..hi] else []
  }

  /** `Array.prototype.join(sep)`. */
  function Join(parts: seq<string>, sep: string): (r: string)
    ensures parts == [] ==> r == []
    ensures |parts| == 1 ==> r == parts[0]
    ensures parts != [] ==> |parts[0]| <= |r| && r[..|parts[0]|] == parts[0]
    decreases |parts|
  {
    if parts == [] then []
    else if |parts| == 1 then parts[0]
    else parts[0] + sep + Join(parts[1..], sep)
  }

  /** Appending a part adds the separator and that part at the end. */
  lemma {:induction false} JoinSnoc(parts: seq<string>, p: string, sep: string)
    requires parts != []
    ensures Join(parts + [p], sep) == Join(parts, sep) + sep + p
    decreases |parts|
  {
    if |parts| > 1 {
      assert (parts + [p])[1..] == parts[1..] + [p];
      JoinSnoc(parts[1..], p, sep);
    }
  }
}
