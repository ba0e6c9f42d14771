/**
 * The tag extractor (src/tools/cleantext.ts): separates the speakable text of
 * a segment from the `<name>` / `[name]` control tags that drive the avatar.
 * The recognised vocabulary (expression names, then motion names) is a
 * parameter; `None` stands for a model whose settings could not be loaded.
 *
 * The replacement pattern `/<([^<>]*)>|\[([^\[\]]*)\]/g` is replaced by an
 * explicit left-to-right scan (`TagMatchAt`): at an opener, the first later
 * character that is either bracket of the same kind must be the closer.
 */
module CleanText {
  import opened Wrappers
  import opened Text
  import opened Chunking

  /** The `type` of a removed value. */
  datatype TagKind = Expression | Motion

  /** `RemovedValue`: the raw tag, its offset in the input, its trimmed name and kind. */
  datatype RemovedValue = RemovedValue(value: string, position: nat, cleanValue: string, kind: TagKind)

  /** The recognised names; `None` when the model's names could not be loaded. */
  datatype Vocabulary = Vocabulary(expressions: Option<set<string>>, motions: Option<set<string>>)

  /** The first index at or after `from` holding `a` or `b`. */
  function FindEither(s: string, a: char, b: char, from: nat): (r: Option<nat>)
    requires from <= |s|
    ensures r.Some? ==> (from <= r.value < |s| && (s[r.value] == a || s[r.value] == b)
      && a !in s[from..r.value] && b !in s[from..r.value])
    ensures r.None? ==> a !in s[from..] && b !in s[from..]
    decreases |s| - from
  {
    if from == |s| then None
    else if s[from] == a || s[from] == b then Some(from)
    else
      var r := FindEither(s, a, b, from + 1);
      assert s[from..] == [s[from]] + s[from + 1..];
      assert r.Some? ==> s[from..r.value] == [s[from]] + s[from + 1..r.value];
      r
  }

  /** The end of the tag the extractor's pattern matches at `p`, if any. */
  function TagMatchAt(s: string, p: nat): (r: Option<nat>)
    requires p < |s|
    ensures r.Some? ==> (p + 2 <= r.value <= |s| && IsOpener(s[p]) && s[r.value - 1] == Closer(s[p])
      && s[p] !in s[p + 1..r.value - 1] && Closer(s[p]) !in s[p + 1..r.value - 1])
  {
    if IsOpener(s[p]) then
      match FindEither(s, s[p], Closer(s[p]), p + 1)
      case Some(q) => if s[q] == Closer(s[p]) then Some(q + 1) else None
      case None => None
    else None
  }

  /** Expressions first, then motions; `None` for a name in neither. */
  function Classify(name: string, vocab: Vocabulary): (r: Option<TagKind>)
    ensures r == Some(Expression) <==> vocab.expressions.Some? && name in vocab.expressions.value
    ensures r == Some(Motion) <==> (!(vocab.expressions.Some? && name in vocab.expressions.value)
      && vocab.motions.Some? && name in vocab.motions.value)
  {
    if vocab.expressions.Some? && name in vocab.expressions.value then Some(Expression)
    else if vocab.motions.Some? && name in vocab.motions.value then Some(Motion)
    else None
  }

  /** `cleanValue`: the tag's inner text, trimmed. */
  function TagName(tag: string): string
    requires 2 <= |tag|
  {
    Trim(tag[1..|tag| - 1])
  }

  /**
   * A removed value is a bracketed piece of `s` at its position whose name is
   * recognised with its kind. (That it is the pattern's match there and that
   * the name is the trimmed inner text is stated by `StepAt` and
   * `RemovedNamesTrimmed`.)
   */
  predicate RemovedFrom(s: string, rv: RemovedValue, vocab: Vocabulary) {
    && rv.position + |rv.value| <= |s|
    && 2 <= |rv.value|
    && s[rv.position..rv.position + |rv.value|] == rv.value
    && IsOpener(rv.value[0]) && rv.value[|rv.value| - 1] == Closer(rv.value[0])
    && Classify(rv.cleanValue, vocab) == Some(rv.kind)
  }

  /** Removed values of `s` at or after `p`, left to right, without overlap. */
  predicate RemovedInOrder(s: string, p: nat, rvs: seq<RemovedValue>, vocab: Vocabulary)
    decreases |rvs|
  {
    rvs == []
    || (&& p <= rvs[0].position
        && RemovedFrom(s, rvs[0], vocab)
        && RemovedInOrder(s, rvs[0].position + |rvs[0].value|, rvs[1..], vocab))
  }

  function SpansOf(rvs: seq<RemovedValue>): (r: seq<Span>)
    ensures |r| == |rvs|
  {
    if rvs == [] then [] else [Span(rvs[0].position, rvs[0].position + |rvs[0].value|)] + SpansOf(rvs[1..])
  }

  lemma SpansOfCons(rv: RemovedValue, rvs: seq<RemovedValue>)
    ensures SpansOf([rv] + rvs) == [Span(rv.position, rv.position + |rv.value|)] + SpansOf(rvs)
  {
    assert ([rv] + rvs)[1..] == rvs;
  }

  /** Every removed value lies at or after `p` and describes a recognised tag. */
  lemma {:induction false} RemovedInOrderEach(s: string, p: nat, rvs: seq<RemovedValue>, vocab: Vocabulary)
    requires RemovedInOrder(s, p, rvs, vocab)
    ensures forall k :: 0 <= k < |rvs| ==> p <= rvs[k].position && RemovedFrom(s, rvs[k], vocab)
    decreases |rvs|
  {
    if rvs != [] {
      var rest := rvs[1..];
      RemovedInOrderEach(s, rvs[0].position + |rvs[0].value|, rest, vocab);
      forall k | 1 <= k < |rvs| ensures p <= rvs[k].position && RemovedFrom(s, rvs[k], vocab) {
        assert rvs[k] == rest[k - 1];
      }
    }
  }

  /** Removed values come in strictly increasing order of position. */
  lemma {:induction false} RemovedInOrderSorted(s: string, p: nat, rvs: seq<RemovedValue>, vocab: Vocabulary)
    requires RemovedInOrder(s, p, rvs, vocab)
    ensures forall k :: 0 <= k < |rvs| - 1 ==> rvs[k].position < rvs[k + 1].position
    decreases |rvs|
  {
    if rvs != [] {
      var rest := rvs[1..];
      RemovedInOrderSorted(s, rvs[0].position + |rvs[0].value|, rest, vocab);
      if |rest| > 0 {
        assert rvs[0].position < rest[0].position;
      }
      forall k | 1 <= k < |rvs| - 1 ensures rvs[k].position < rvs[k + 1].position {
        assert rvs[k] == rest[k - 1] && rvs[k + 1] == rest[k];
      }
    }
  }

  /** The spans of the removed values are sorted, disjoint spans of `s`. */
  lemma {:induction false} RemovedInOrderSpans(s: string, p: nat, rvs: seq<RemovedValue>, vocab: Vocabulary)
    requires RemovedInOrder(s, p, rvs, vocab)
    ensures SpansWithin(s, p, SpansOf(rvs))
    decreases |rvs|
  {
    if rvs != [] {
      RemovedInOrderSpans(s, rvs[0].position + |rvs[0].value|, rvs[1..], vocab);
    }
  }

  /** What one step of the replace pass does at a position. */
  datatype Step = Keep(text: string, next: nat) | Remove(removed: RemovedValue, next: nat)

  /**
   * At `p`: a recognised tag is removed; an unknown tag is kept whole; any
   * other character is kept.
   */
  function StepAt(s: string, p: nat, vocab: Vocabulary): (r: Step)
    requires p < |s|
    ensures p < r.next <= |s|
    ensures r.Keep? ==> r.text == s[p..r.next]
    ensures r.Remove? ==> (r.removed.position == p && r.next == p + |r.removed.value|
      && TagMatchAt(s, p) == Some(r.next)
      && RemovedFrom(s, r.removed, vocab) && r.removed.cleanValue == TagName(r.removed.value))
  {
    match TagMatchAt(s, p)
    case Some(e) =>
      var name := TagName(s[p..e]);
      (match Classify(name, vocab)
       case Some(kind) => Remove(RemovedValue(s[p..e], p, name, kind), e)
       case None => Keep(s[p..e], e))
    case None => Keep([s[p]], p + 1)
  }

  /**
   * The replace pass over `s[p..]`: the text it keeps (recognised tags replaced
   * by nothing, everything else verbatim) and the removed values, left to right.
   */
  function ScanFrom(s: string, p: nat, vocab: Vocabulary): (string, seq<RemovedValue>)
    requires p <= |s|
    decreases |s| - p
  {
    if p == |s| then ("", [])
    else
      match StepAt(s, p, vocab)
      case Keep(t, n) =>
        var rest := ScanFrom(s, n, vocab);
        (t + rest.0, rest.1)
      case Remove(rv, n) =>
        var rest := ScanFrom(s, n, vocab);
        (rest.0, [rv] + rest.1)
  }

  lemma ScanKeep(s: string, p: nat, vocab: Vocabulary)
    requires p < |s| && StepAt(s, p, vocab).Keep?
    ensures var step := StepAt(s, p, vocab);
      ScanFrom(s, p, vocab) == (step.text + ScanFrom(s, step.next, vocab).0, ScanFrom(s, step.next, vocab).1)
  {
  }

  lemma ScanRemove(s: string, p: nat, vocab: Vocabulary)
    requires p < |s| && StepAt(s, p, vocab).Remove?
    ensures var step := StepAt(s, p, vocab);
      ScanFrom(s, p, vocab) == (ScanFrom(s, step.next, vocab).0, [step.removed] + ScanFrom(s, step.next, vocab).1)
  {
  }

  /** The pass removes recognised tags only, left to right, without overlap. */
  lemma {:induction false} ScanRemovesInOrder(s: string, p: nat, vocab: Vocabulary)
    requires p <= |s|
    ensures RemovedInOrder(s, p, ScanFrom(s, p, vocab).1, vocab)
    decreases |s| - p
  {
    if p < |s| {
      var step := StepAt(s, p, vocab);
      ScanRemovesInOrder(s, step.next, vocab);
      var rest := ScanFrom(s, step.next, vocab).1;
      if step.Remove? {
        ScanRemove(s, p, vocab);
        RemovedInOrderCons(s, p, step.removed, rest, vocab);
      } else {
        assert ScanFrom(s, p, vocab).1 == rest by { ScanKeep(s, p, vocab); }
        RemovedInOrderFromEarlier(s, p, step.next, rest, vocab);
      }
    }
  }

  lemma RemovedInOrderCons(s: string, p: nat, rv: RemovedValue, rest: seq<RemovedValue>, vocab: Vocabulary)
    requires p <= rv.position && RemovedFrom(s, rv, vocab)
    requires RemovedInOrder(s, rv.position + |rv.value|, rest, vocab)
    ensures RemovedInOrder(s, p, [rv] + rest, vocab)
  {
    assert ([rv] + rest)[0] == rv && ([rv] + rest)[1..] == rest;
  }

  lemma RemovedInOrderFromEarlier(s: string, p: nat, n: nat, rvs: seq<RemovedValue>, vocab: Vocabulary)
    requires p <= n && RemovedInOrder(s, n, rvs, vocab)
    ensures RemovedInOrder(s, p, rvs, vocab)
  {
  }

  /** Every removed value's `cleanValue` is its inner text, trimmed. */
  predicate NamesTrimmed(rvs: seq<RemovedValue>) {
    forall k :: 0 <= k < |rvs| ==> 2 <= |rvs[k].value| && rvs[k].cleanValue == TagName(rvs[k].value)
  }

  lemma {:induction false} RemovedNamesTrimmed(s: string, p: nat, vocab: Vocabulary)
    requires p <= |s|
    ensures NamesTrimmed(ScanFrom(s, p, vocab).1)
    decreases |s| - p
  {
    if p < |s| {
      var step := StepAt(s, p, vocab);
      RemovedNamesTrimmed(s, step.next, vocab);
      var rest := ScanFrom(s, step.next, vocab).1;
      if step.Remove? {
        var rv := step.removed;
        var rvs := [rv] + rest;
        assert ScanFrom(s, p, vocab).1 == rvs by { ScanRemove(s, p, vocab); }
        forall k | 0 <= k < |rvs|
          ensures 2 <= |rvs[k].value| && rvs[k].cleanValue == TagName(rvs[k].value)
        {
          if k > 0 {
            assert rvs[k] == rest[k - 1];
          }
        }
      } else {
        assert ScanFrom(s, p, vocab).1 == rest by { ScanKeep(s, p, vocab); }
      }
    }
  }

  lemma InnerSlice(s: string, p: nat, e: nat)
    requires p + 2 <= e <= |s|
    ensures s[p..e][1..e - p - 1] == s[p + 1..e - 1]
  {
    var inner := s[p..e][1..e - p - 1];
    forall i | 0 <= i < |inner| ensures inner[i] == s[p + 1..e - 1][i] {
      assert inner[i] == s[p..e][i + 1] == s[p + 1 + i];
    }
  }

  /** The name of the tag at `p..e` is its inner text, trimmed. */
  lemma TagNameInner(s: string, p: nat, e: nat)
    requires p + 2 <= e <= |s|
    ensures TagName(s[p..e]) == Trim(s[p + 1..e - 1])
  {
    InnerSlice(s, p, e);
  }

  /** At a recognised tag the scan removes it and goes on after it. */
  lemma ScanAtRecognised(s: string, p: nat, e: nat, name: string, kind: TagKind, vocab: Vocabulary)
    requires p < |s| && TagMatchAt(s, p) == Some(e)
    requires name == TagName(s[p..e]) && Classify(name, vocab) == Some(kind)
    ensures e <= |s|
    ensures ScanFrom(s, p, vocab) == (ScanFrom(s, e, vocab).0, [RemovedValue(s[p..e], p, name, kind)] + ScanFrom(s, e, vocab).1)
  {
    ScanRemove(s, p, vocab);
  }

  /** At an unknown tag the scan keeps it whole and goes on after it. */
  lemma ScanAtUnknown(s: string, p: nat, e: nat, name: string, vocab: Vocabulary)
    requires p < |s| && TagMatchAt(s, p) == Some(e)
    requires name == TagName(s[p..e]) && Classify(name, vocab).None?
    ensures p < e <= |s|
    ensures ScanFrom(s, p, vocab) == (s[p..e] + ScanFrom(s, e, vocab).0, ScanFrom(s, e, vocab).1)
  {
    ScanKeep(s, p, vocab);
  }

  /** Where the pattern does not match, the scan keeps one character. */
  lemma ScanAtChar(s: string, p: nat, vocab: Vocabulary)
    requires p < |s| && TagMatchAt(s, p).None?
    ensures ScanFrom(s, p, vocab) == ([s[p]] + ScanFrom(s, p + 1, vocab).0, ScanFrom(s, p + 1, vocab).1)
  {
    ScanKeep(s, p, vocab);
  }

  /** `cleanTextAndGetRemovedValues`, as a value. */
  function Clean(text: string, vocab: Vocabulary): (r: (string, seq<RemovedValue>))
    ensures EndsInOpenTag(text) ==> r == (text, [])
    ensures !EndsInOpenTag(text) ==> SingleSpaced(r.0) && (r.0 == [] || (r.0[0] != ' ' && r.0[|r.0| - 1] != ' '))
  {
    if EndsInOpenTag(text) then (text, [])
    else
      var scanned := ScanFrom(text, 0, vocab);
      (NormalizeSpaces(scanned.0), scanned.1)
  }

  /** Every removed value is a recognised tag of the input, and they come in order of position. */
  lemma CleanRemovals(text: string, vocab: Vocabulary)
    ensures var rvs := Clean(text, vocab).1;
      && (forall k :: 0 <= k < |rvs| ==> RemovedFrom(text, rvs[k], vocab))
      && (forall k :: 0 <= k < |rvs| - 1 ==> rvs[k].position < rvs[k + 1].position)
  {
    if !EndsInOpenTag(text) {
      var rvs := ScanFrom(text, 0, vocab).1;
      ScanRemovesInOrder(text, 0, vocab);
      RemovedInOrderEach(text, 0, rvs, vocab);
      RemovedInOrderSorted(text, 0, rvs, vocab);
    }
  }

  /**
   * What the pass keeps is the input with exactly the removed tags cut out:
   * unrecognised tags and all other text stay verbatim.
   */
  lemma {:induction false} ScanDeletesRemoved(s: string, p: nat, vocab: Vocabulary)
    requires p <= |s|
    ensures SpansWithin(s, p, SpansOf(ScanFrom(s, p, vocab).1))
    ensures ScanFrom(s, p, vocab).0 == DeleteSpans(s, p, SpansOf(ScanFrom(s, p, vocab).1))
    decreases |s| - p
  {
    if p < |s| {
      var step := StepAt(s, p, vocab);
      ScanDeletesRemoved(s, step.next, vocab);
      var rest := ScanFrom(s, step.next, vocab);
      if step.Keep? {
        ScanKeep(s, p, vocab);
        KeptTextThenRest(s, p, step.next, SpansOf(rest.1), step.text, rest.0);
      } else {
        var rv := step.removed;
        ScanRemove(s, p, vocab);
        assert ScanFrom(s, p, vocab) == (rest.0, [rv] + rest.1);
        SpansOfCons(rv, rest.1);
        assert Span(rv.position, rv.position + |rv.value|) == Span(p, step.next);
        DeleteSpansHead(s, p, step.next, SpansOf(rest.1));
      }
    } else {
      assert s[p..] == [];
    }
  }

  lemma KeptTextThenRest(s: string, p: nat, n: nat, spans: seq<Span>, kept: string, rest: string)
    requires p <= n <= |s| && SpansWithin(s, n, spans)
    requires kept == s[p..n] && rest == DeleteSpans(s, n, spans)
    ensures SpansWithin(s, p, spans) && kept + rest == DeleteSpans(s, p, spans)
  {
    DeleteSpansPrefix(s, p, n, spans);
  }

  /**
   * The cleaned text is the input with the recognised tags deleted, up to
   * whitespace: it has the same non-whitespace characters in the same order.
   */
  lemma CleanedTextIsInputWithoutRemovedTags(text: string, vocab: Vocabulary)
    requires !EndsInOpenTag(text)
    ensures SpansWithin(text, 0, SpansOf(Clean(text, vocab).1))
    ensures NonSpace(Clean(text, vocab).0) == NonSpace(DeleteSpans(text, 0, SpansOf(Clean(text, vocab).1)))
  {
    ScanDeletesRemoved(text, 0, vocab);
  }

  /** With no vocabulary loaded nothing is recognised: no tag is removed. */
  lemma {:induction false} NothingRecognisedWithoutVocabulary(s: string, p: nat, vocab: Vocabulary)
    requires p <= |s| && vocab.expressions.None? && vocab.motions.None?
    ensures ScanFrom(s, p, vocab) == (s[p..], [])
    decreases |s| - p
  {
    if p < |s| {
      var n := KeptWithoutVocabulary(s, p, vocab);
      NothingRecognisedWithoutVocabulary(s, n, vocab);
      SuffixSplit(s, p, n);
    } else {
      assert s[p..] == [];
    }
  }

  /** Without a vocabulary the step at `p` keeps the text up to the position it returns. */
  lemma KeptWithoutVocabulary(s: string, p: nat, vocab: Vocabulary) returns (n: nat)
    requires p < |s| && vocab.expressions.None? && vocab.motions.None?
    ensures p < n <= |s|
    ensures ScanFrom(s, p, vocab) == (s[p..n] + ScanFrom(s, n, vocab).0, ScanFrom(s, n, vocab).1)
  {
    n := StepAt(s, p, vocab).next;
    ScanKeep(s, p, vocab);
  }

  lemma SuffixSplit(s: string, p: nat, n: nat)
    requires p <= n <= |s|
    ensures s[p..] == s[p..n] + s[n..]
  {
  }

  /** With no vocabulary loaded the cleaner only normalises whitespace. */
  lemma CleanWithoutVocabulary(text: string)
    requires !EndsInOpenTag(text)
    ensures Clean(text, Vocabulary(None, None)) == (NormalizeSpaces(text), [])
  {
    NothingRecognisedWithoutVocabulary(text, 0, Vocabulary(None, None));
  }

  /**
   * One match of the pattern at `p` and its callback: a recognised tag is
   * pushed and replaced by nothing, an unknown tag is kept whole; where the
   * pattern does not match, one character is kept.
   */
  method ReplaceAt(text: string, p: nat, vocab: Vocabulary) returns (piece: string, removed: seq<RemovedValue>, next: nat)
    requires p < |text|
    ensures p < next <= |text|
    ensures ScanFrom(text, p, vocab) == (piece + ScanFrom(text, next, vocab).0, removed + ScanFrom(text, next, vocab).1)
  {
    var m := TagMatchAt(text, p);
    if m.Some? {
      var e := m.value;
      var cleanValue := Trim(text[p + 1..e - 1]);
      TagNameInner(text, p, e);
      var kind := Classify(cleanValue, vocab);
      if kind.Some? {
        ScanAtRecognised(text, p, e, cleanValue, kind.value, vocab);
        piece, removed := "", [RemovedValue(text[p..e], p, cleanValue, kind.value)];
        assert piece + ScanFrom(text, e, vocab).0 == ScanFrom(text, e, vocab).0;
      } else {
        ScanAtUnknown(text, p, e, cleanValue, vocab);
        piece, removed := text[p..e], [];
        assert removed + ScanFrom(text, e, vocab).1 == ScanFrom(text, e, vocab).1;
      }
      next := e;
    } else {
      ScanAtChar(text, p, vocab);
      piece, removed, next := [text[p]], [], p + 1;
      assert removed + ScanFrom(text, next, vocab).1 == ScanFrom(text, next, vocab).1;
    }
  }

  /**
   * The `text.replace(pattern, callback)` pass of `cleanTextAndGetRemovedValues`:
   * a loop that appends what it keeps and pushes each recognised tag.
   */
  method ReplaceTags(text: string, vocab: Vocabulary) returns (kept: string, removedValues: seq<RemovedValue>)
    ensures (kept, removedValues) == ScanFrom(text, 0, vocab)
  {
    kept := "";
    removedValues := [];
    var p := 0;
    while p < |text|
      invariant 0 <= p <= |text|
      invariant ScanFrom(text, 0, vocab).0 == kept + ScanFrom(text, p, vocab).0
      invariant ScanFrom(text, 0, vocab).1 == removedValues + ScanFrom(text, p, vocab).1
      decreases |text| - p
    {
      var piece, removed, next := ReplaceAt(text, p, vocab);
      Assoc(kept, piece, ScanFrom(text, next, vocab).0);
      Assoc(removedValues, removed, ScanFrom(text, next, vocab).1);
      kept := kept + piece;
      removedValues := removedValues + removed;
      p := next;
    }
    ScanAtEnd(text, vocab, kept, removedValues);
  }

  /** At the end of the text nothing is left to scan: what was gathered is the result. */
  lemma ScanAtEnd(text: string, vocab: Vocabulary, kept: string, removedValues: seq<RemovedValue>)
    requires ScanFrom(text, 0, vocab).0 == kept + ScanFrom(text, |text|, vocab).0
    requires ScanFrom(text, 0, vocab).1 == removedValues + ScanFrom(text, |text|, vocab).1
    ensures (kept, removedValues) == ScanFrom(text, 0, vocab)
  {
    assert kept + "" == kept;
    assert removedValues + [] == removedValues;
  }

  /**
   * `cleanTextAndGetRemovedValues`: unchanged text and no removed values while
   * a tag is still open; otherwise the replace pass, then whitespace
   * normalisation.
   */
  method CleanTextAndGetRemovedValues(text: string, vocab: Vocabulary)
    returns (cleanedText: string, removedValues: seq<RemovedValue>)
    ensures (cleanedText, removedValues) == Clean(text, vocab)
  {
    if EndsInOpenTag(text) {
      return text, [];
    }
    var kept;
    kept, removedValues := ReplaceTags(text, vocab);
    cleanedText := NormalizeSpaces(kept);
  }

  /** No opener is left unclosed exactly when every opener has its closer after it. */
  lemma NoOpenTagIff(text: string)
    ensures !EndsInOpenTag(text) <==> forall p :: 0 <= p < |text| && IsOpener(text[p]) ==> Closer(text[p]) in text[p + 1..]
  {
    if !EndsInOpenTag(text) {
      forall p | 0 <= p < |text| && IsOpener(text[p]) ensures Closer(text[p]) in text[p + 1..] {
        assert !OpensUnclosed(text, p);
      }
    }
  }

  /** `hasCompleteExpressions`: every `<` and `[` is closed somewhere after it. */
  function HasCompleteExpressions(text: string): (r: bool)
    ensures r <==> forall p :: 0 <= p < |text| && IsOpener(text[p]) ==> Closer(text[p]) in text[p + 1..]
  {
    NoOpenTagIff(text);
    !EndsInOpenTag(text)
  }

  /** The first position that opens a tag never closed afterwards. */
  function FirstUnclosedFrom(s: string, p: nat): (r: Option<nat>)
    requires p <= |s|
    ensures r.Some? ==> (p <= r.value < |s| && OpensUnclosed(s, r.value)
      && forall j :: p <= j < r.value ==> !OpensUnclosed(s, j))
    ensures r.None? ==> forall j :: p <= j < |s| ==> !OpensUnclosed(s, j)
    decreases |s| - p
  {
    if p == |s| then None
    else if OpensUnclosed(s, p) then Some(p)
    else FirstUnclosedFrom(s, p + 1)
  }

  /**
   * `getPartialExpression`: the suffix from the first opener that is never
   * closed, or `None` when every opener is closed.
   */
  function GetPartialExpression(text: string): (r: Option<string>)
    ensures r.Some? <==> EndsInOpenTag(text)
    ensures r.Some? ==> var p := |text| - |r.value|;
      && 0 <= p < |text| && r.value == text[p..] && OpensUnclosed(text, p)
      && forall j :: 0 <= j < p ==> !OpensUnclosed(text, j)
  {
    match FirstUnclosedFrom(text, 0)
    case None => None
    case Some(p) => Some(text[p..])
  }

  /**
   * `isExpressionOnly`: the text holds at least one complete tag (in the
   * segmentation engine's sense) and nothing visible outside its tags.
   */
  function IsExpressionOnly(text: string): (r: bool)
    ensures SpansWithin(text, 0, Tags(text))
    ensures r <==> Tags(text) != [] && NonSpace(text) == NonSpace(SpanTexts(text, 0, Tags(text)))
  {
    TagsWithin(text, 0);
    var tags := Tags(text);
    DeleteSpansSplitsNonSpace(text, 0, tags);
    assert text[0..] == text;
    BlankIffNoNonSpace(DeleteSpans(text, 0, tags));
    tags != [] && IsBlank(DeleteSpans(text, 0, tags))
  }
}
