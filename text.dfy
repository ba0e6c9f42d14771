/**
 * String helpers shared by the pipeline: JavaScript's notion of whitespace
 * (the `\s` class and `String.prototype.trim`), whitespace collapsing and
 * first-occurrence search and replacement (`String.prototype.replace` with a
 * string pattern).
 */
module Text {
  import opened Wrappers

  /** The characters JavaScript's `\s` and `trim` treat as whitespace. */
  predicate IsSpace(c: char) {
    || c == ' ' || c == '\t' || c == '\n' || c == '\U{000B}' || c == '\U{000C}' || c == '\r'
    || c == '\U{00A0}' || c == '\U{1680}' || ('\U{2000}' <= c <= '\U{200A}')
    || c == '\U{2028}' || c == '\U{2029}' || c == '\U{202F}' || c == '\U{205F}'
    || c == '\U{3000}' || c == '\U{FEFF}'
  }

  /** `!s.trim()`: the string holds nothing but whitespace (or nothing at all). */
  predicate IsBlank(s: string) {
    forall i :: 0 <= i < |s| ==> IsSpace(s[i])
  }

  /** The non-whitespace characters of `s`, in order. */
  function NonSpace(s: string): string {
    if s == [] then []
    else (if IsSpace(s[0]) then [] else [s[0]]) + NonSpace(s[1..])
  }

  lemma {:induction false} NonSpaceAppend(a: string, b: string)
    ensures NonSpace(a + b) == NonSpace(a) + NonSpace(b)
  {
    if a == [] {
      assert a + b == b;
    } else {
      assert (a + b)[1..] == a[1..] + b;
      NonSpaceAppend(a[1..], b);
    }
  }

  lemma {:induction false} NonSpaceOfBlank(s: string)
    requires IsBlank(s)
    ensures NonSpace(s) == []
  {
    if s != [] {
      NonSpaceOfBlank(s[1..]);
    }
  }

  /** `String.prototype.trimStart`. */
  function TrimStart(s: string): (r: string)
    ensures |r| <= |s|
  {
    if s == [] || !IsSpace(s[0]) then s else TrimStart(s[1..])
  }

  /** What `TrimStart` drops is the leading whitespace, and no more. */
  lemma {:induction false} TrimStartFacts(s: string)
    ensures var r := TrimStart(s);
      && r == s[|s| - |r|..]
      && (r == [] || !IsSpace(r[0]))
      && IsBlank(s[..|s| - |r|])
  {
    if s != [] && IsSpace(s[0]) {
      TrimStartFacts(s[1..]);
      var r := TrimStart(s[1..]);
      assert s[1..][|s| - 1 - |r|..] == s[|s| - |r|..];
      var dropped := s[..|s| - |r|];
      forall i | 0 <= i < |dropped| ensures IsSpace(dropped[i]) {
        if i > 0 {
          assert dropped[i] == s[1..][..|s| - 1 - |r|][i - 1];
        }
      }
    }
  }

  /** `String.prototype.trimEnd`. */
  function TrimEnd(s: string): (r: string)
    ensures |r| <= |s|
  {
    if s == [] || !IsSpace(s[|s| - 1]) then s else TrimEnd(s[..|s| - 1])
  }

  /** What `TrimEnd` drops is the trailing whitespace, and no more. */
  lemma {:induction false} TrimEndFacts(s: string)
    ensures var r := TrimEnd(s);
      && r == s[..|r|]
      && (r == [] || !IsSpace(r[|r| - 1]))
      && IsBlank(s[|r|..])
  {
    if s != [] && IsSpace(s[|s| - 1]) {
      var t := s[..|s| - 1];
      TrimEndFacts(t);
      var r := TrimEnd(t);
      assert t[..|r|] == s[..|r|];
      var dropped := s[|r|..];
      forall i | 0 <= i < |dropped| ensures IsSpace(dropped[i]) {
        if i < |s| - |r| - 1 {
          assert dropped[i] == t[|r|..][i];
        }
      }
    }
  }

  /** Number of leading whitespace characters of `s`. */
  function Lead(s: string): (n: nat)
    ensures n <= |s|
  {
    |s| - |TrimStart(s)|
  }

  /** `String.prototype.trim`. */
  function Trim(s: string): (r: string)
    ensures |r| <= |s|
  {
    TrimEnd(TrimStart(s))
  }

  /**
   * `trim` keeps the infix between the leading and the trailing whitespace:
   * it starts and ends with a visible character, is empty exactly for blank
   * input, and loses no visible character.
   */
  lemma TrimFacts(s: string)
    ensures var r := Trim(s);
      && Lead(s) + |r| <= |s| && r == s[Lead(s)..Lead(s) + |r|]
      && (r == [] || (!IsSpace(r[0]) && !IsSpace(r[|r| - 1])))
      && (r == [] <==> IsBlank(s))
      && NonSpace(r) == NonSpace(s)
  {
    var t := TrimStart(s);
    var r := TrimEnd(t);
    TrimStartFacts(s);
    TrimEndFacts(t);
    TrimKeepsNonSpace(s, t, r);
    BlankIffNoNonSpace(s);
    BlankIffNoNonSpace(r);
    assert r == s[|s| - |t|..][..|r|];
    if r != [] {
      assert r[0] == t[0];
    }
  }

  lemma TrimKeepsNonSpace(s: string, t: string, r: string)
    requires |t| <= |s| && t == s[|s| - |t|..] && IsBlank(s[..|s| - |t|])
    requires |r| <= |t| && r == t[..|r|] && IsBlank(t[|r|..])
    ensures NonSpace(r) == NonSpace(s)
  {
    DropBlankPrefix(s, |s| - |t|);
    DropBlankSuffix(t, |r|);
  }

  /** A blank prefix holds no visible character. */
  lemma DropBlankPrefix(s: string, i: nat)
    requires i <= |s| && IsBlank(s[..i])
    ensures NonSpace(s[i..]) == NonSpace(s)
  {
    assert s == s[..i] + s[i..];
    NonSpaceAppend(s[..i], s[i..]);
    NonSpaceOfBlank(s[..i]);
  }

  /** A blank suffix holds no visible character. */
  lemma DropBlankSuffix(s: string, n: nat)
    requires n <= |s| && IsBlank(s[n..])
    ensures NonSpace(s[..n]) == NonSpace(s)
  {
    assert s == s[..n] + s[n..];
    NonSpaceAppend(s[..n], s[n..]);
    NonSpaceOfBlank(s[n..]);
  }

  /** `s.replace(/\s+/g, ' ')`: every maximal run of whitespace becomes one space. */
  function CollapseSpaces(s: string): (r: string)
    ensures r == [] <==> s == []
    ensures s != [] && !IsSpace(s[0]) ==> r[0] == s[0]
    ensures s != [] && IsSpace(s[0]) ==> r[0] == ' '
    ensures SingleSpaced(r)
    ensures NonSpace(r) == NonSpace(s)
    decreases |s|
  {
    if s == [] then []
    else if IsSpace(s[0]) then
      var rest := TrimStart(s);
      TrimStartFacts(s);
      assert |rest| < |s|;
      var c := CollapseSpaces(rest);
      SpaceRunCollapsed(s, rest, c);
      " " + c
    else
      var c := CollapseSpaces(s[1..]);
      CharThenCollapsed(s, c);
      [s[0]] + c
  }

  /** A leading run of whitespace becomes one space in front of the collapsed rest. */
  lemma SpaceRunCollapsed(s: string, rest: string, c: string)
    requires |rest| < |s| && rest == s[|s| - |rest|..] && IsBlank(s[..|s| - |rest|])
    requires rest == [] || !IsSpace(rest[0])
    requires SingleSpaced(c) && NonSpace(c) == NonSpace(rest)
    requires c == [] <==> rest == []
    requires rest != [] ==> c[0] == rest[0]
    ensures SingleSpaced(" " + c) && NonSpace(" " + c) == NonSpace(s)
  {
    var run := s[..|s| - |rest|];
    NonSpaceAppend(run, rest);
    NonSpaceOfBlank(run);
    assert s == run + rest;
    NonSpaceAppend(" ", c);
    assert c == [] || c[0] != ' ';
    SpaceThenSingleSpaced(c);
  }

  lemma SpaceThenSingleSpaced(c: string)
    requires SingleSpaced(c) && (c == [] || c[0] != ' ')
    ensures SingleSpaced(" " + c)
  {
    var r := " " + c;
    forall i | 0 <= i < |r| - 1 ensures !(r[i] == ' ' && r[i + 1] == ' ') {
      if i > 0 {
        assert r[i] == c[i - 1] && r[i + 1] == c[i];
      }
    }
    assert forall i :: 1 <= i < |r| ==> r[i] == c[i - 1];
  }

  /** A visible first character stays in front of the collapsed rest. */
  lemma CharThenCollapsed(s: string, c: string)
    requires s != [] && !IsSpace(s[0])
    requires SingleSpaced(c) && NonSpace(c) == NonSpace(s[1..])
    ensures SingleSpaced([s[0]] + c) && NonSpace([s[0]] + c) == NonSpace(s)
  {
    NonSpaceAppend([s[0]], c);
    NonSpaceAppend([s[0]], s[1..]);
    assert s == [s[0]] + s[1..];
    var r := [s[0]] + c;
    assert forall i :: 1 <= i < |r| ==> r[i] == c[i - 1];
  }

  /** `s.replace(/\s+/g, ' ').trim()`: the normal form the cleaner hands to speech synthesis. */
  function NormalizeSpaces(s: string): (r: string)
    ensures SingleSpaced(r)
    ensures r == [] || (r[0] != ' ' && r[|r| - 1] != ' ')
    ensures NonSpace(r) == NonSpace(s)
    ensures r == [] <==> IsBlank(s)
  {
    var c := CollapseSpaces(s);
    var r := Trim(c);
    TrimFacts(c);
    SingleSpacedInfix(c, r, Lead(c));
    assert NonSpace(r) == NonSpace(s);
    BlankIffSameNonSpace(s, r);
    r
  }

  lemma BlankIffSameNonSpace(s: string, r: string)
    requires NonSpace(r) == NonSpace(s)
    ensures IsBlank(s) <==> IsBlank(r)
  {
    BlankIffNoNonSpace(s);
    BlankIffNoNonSpace(r);
  }

  /** Every whitespace character is a plain space and no two spaces are adjacent. */
  predicate SingleSpaced(s: string) {
    && (forall i :: 0 <= i < |s| && IsSpace(s[i]) ==> s[i] == ' ')
    && (forall i :: 0 <= i < |s| - 1 ==> !(s[i] == ' ' && s[i + 1] == ' '))
  }

  lemma SingleSpacedInfix(c: string, r: string, i: nat)
    requires SingleSpaced(c)
    requires i + |r| <= |c| && r == c[i..i + |r|]
    ensures SingleSpaced(r)
  {
    assert forall k :: 0 <= k < |r| ==> r[k] == c[i + k];
  }

  lemma {:induction false} BlankIffNoNonSpace(s: string)
    ensures IsBlank(s) <==> NonSpace(s) == []
  {
    if s != [] {
      BlankIffNoNonSpace(s[1..]);
      if !IsSpace(s[0]) {
        assert NonSpace(s)[0] == s[0];
      } else {
        assert IsBlank(s) <==> IsBlank(s[1..]) by {
          if IsBlank(s[1..]) {
            forall k | 0 <= k < |s| ensures IsSpace(s[k]) {
              if k > 0 { assert s[k] == s[1..][k - 1]; }
            }
          }
          if IsBlank(s) {
            forall k | 0 <= k < |s| - 1 ensures IsSpace(s[1..][k]) {
              assert s[1..][k] == s[k + 1];
            }
          }
        }
      }
    }
  }

  /** `pat` occurs in `s` starting at index `i`. */
  predicate OccursAt<T(==)>(s: seq<T>, pat: seq<T>, i: nat) {
    i + |pat| <= |s| && s[i..i + |pat|] == pat
  }

  /**
   * `s.indexOf(pat, from)` for `from <= |s|`: the first occurrence at or
   * after `from` (of a substring, or of a byte pattern in a buffer).
   */
  function IndexOfFrom<T(==)>(s: seq<T>, pat: seq<T>, from: nat): (r: Option<nat>)
    requires from <= |s|
    ensures r.None? ==> forall j :: from <= j <= |s| ==> !OccursAt(s, pat, j)
    ensures r.Some? ==> (from <= r.value && OccursAt(s, pat, r.value)
      && forall j :: from <= j < r.value ==> !OccursAt(s, pat, j))
    decreases |s| - from
  {
    if OccursAt(s, pat, from) then Some(from)
    else if from == |s| then None
    else IndexOfFrom(s, pat, from + 1)
  }

  function IndexOf<T(==)>(s: seq<T>, pat: seq<T>): (r: Option<nat>)
    ensures r.None? ==> forall j :: 0 <= j <= |s| ==> !OccursAt(s, pat, j)
    ensures r.Some? ==> (OccursAt(s, pat, r.value)
      && forall j :: 0 <= j < r.value ==> !OccursAt(s, pat, j))
  {
    IndexOfFrom(s, pat, 0)
  }

  /**
   * `s.replace(pat, rep)` with a string pattern: only the first occurrence is
   * replaced (replacement strings are taken literally, without `$` patterns).
   */
  function ReplaceFirst(s: string, pat: string, rep: string): (r: string)
    ensures IndexOf(s, pat).None? ==> r == s
    ensures IndexOf(s, pat).Some? ==>
      var i := IndexOf(s, pat).value;
      r == s[..i] + rep + s[i + |pat|..]
  {
    match IndexOf(s, pat)
    case None => s
    case Some(i) => s[..i] + rep + s[i + |pat|..]
  }

  /** `items.join(sep)`. */
  function Join(items: seq<string>, sep: string): string {
    if items == [] then ""
    else if |items| == 1 then items[0]
    else items[0] + sep + Join(items[1..], sep)
  }
}
