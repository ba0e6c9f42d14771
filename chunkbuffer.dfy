/**
 * The segmentation engine of the streaming pipeline (`ChunkBuffer` in
 * src/tools/chunkbuffer.ts): a string accumulator that receives the model's
 * text deltas and cuts off at most one speakable prefix per delta, plus the
 * per-connection registry of accumulators.
 *
 * The source's regular expressions are replaced by explicit scans:
 *  - an unterminated tag (`/<[^>]*$|\[[^\]]*$/`) is an opening `<` or `[`
 *    whose closer never occurs later in the string (`OpensUnclosed`);
 *  - the complete tags (`matchAll(/<[^>]*>|\[[^\]]*\]/g)`) are found left to
 *    right, each running from an opener to the first matching closer after
 *    it, the next search resuming after that closer (`Tags`).
 */
module Chunking {
  import opened Wrappers
  import opened Text

  /** `minLengthToSplit`: no prefix is cut from a shorter buffer. */
  const MinLengthToSplit: nat := 20
  /** `proximityThreshold` of `isGoodBreakPoint`. */
  const ProximityThreshold: nat := 5

  /** `safeBreakChars`. */
  predicate IsSafeBreakChar(c: char) {
    c == ' ' || c == '\n' || c == '\t' || c == '.' || c == ',' || c == '!' || c == '?' || c == ';' || c == ':'
  }

  predicate IsOpener(c: char) {
    c == '<' || c == '['
  }

  /** The closer that matches an opener. */
  function Closer(opener: char): char
    requires IsOpener(opener)
  {
    if opener == '<' then '>' else ']'
  }

  /** Position `p` opens a tag whose closer never occurs after it. */
  predicate OpensUnclosed(s: string, p: nat)
    requires p < |s|
  {
    IsOpener(s[p]) && Closer(s[p]) !in s[p + 1..]
  }

  /** The buffer ends inside an unterminated `<...` or `[...`. */
  predicate EndsInOpenTag(s: string) {
    exists p :: 0 <= p < |s| && OpensUnclosed(s, p)
  }

  function Abs(x: int): nat {
    if x < 0 then -x else x
  }

  /** A tag occupying the half-open index range [start, end). */
  datatype Span = Span(start: nat, end: nat)

  /** The first index at or after `from` that holds `c`. */
  function FindChar(s: string, c: char, from: nat): (r: Option<nat>)
    requires from <= |s|
    ensures r.Some? ==> from <= r.value < |s| && s[r.value] == c && c !in s[from..r.value]
    ensures r.None? ==> c !in s[from..]
    decreases |s| - from
  {
    if from == |s| then None
    else if s[from] == c then Some(from)
    else
      var r := FindChar(s, c, from + 1);
      assert s[from..] == [s[from]] + s[from + 1..];
      r
  }

  /** `FindChar` finds the first occurrence. */
  lemma {:induction false} FindCharAt(s: string, c: char, from: nat, q: nat)
    requires from <= q < |s| && s[q] == c && c !in s[from..q]
    ensures FindChar(s, c, from) == Some(q)
    decreases q - from
  {
    if from < q {
      assert s[from] == s[from..q][0];
      assert s[from + 1..q] == s[from..q][1..];
      FindCharAt(s, c, from + 1, q);
    }
  }

  /** The end of the complete tag that starts at `p`, if one does. */
  function TagEndAt(s: string, p: nat): Option<nat>
    requires p < |s|
  {
    if IsOpener(s[p]) then
      match FindChar(s, Closer(s[p]), p + 1)
      case Some(q) => Some(q + 1)
      case None => None
    else None
  }

  /** `sp` is a complete tag of `s`: an opener, the first matching closer after it. */
  predicate IsTag(s: string, sp: Span) {
    && sp.start < sp.end <= |s|
    && IsOpener(s[sp.start])
    && s[sp.end - 1] == Closer(s[sp.start])
    && Closer(s[sp.start]) !in s[sp.start + 1..sp.end - 1]
  }

  /** The complete tags found scanning from `p`, left to right, without overlap. */
  function TagsFrom(s: string, p: nat): (r: seq<Span>)
    requires p <= |s|
    ensures forall k :: 0 <= k < |r| ==> p <= r[k].start && IsTag(s, r[k])
    ensures forall k :: 0 <= k < |r| - 1 ==> r[k].end <= r[k + 1].start
    decreases |s| - p
  {
    if p == |s| then []
    else
      match TagEndAt(s, p)
      case Some(e) => [Span(p, e)] + TagsFrom(s, e)
      case None => TagsFrom(s, p + 1)
  }

  /** `buffer.matchAll(expressionPattern)`, as index ranges. */
  function Tags(s: string): seq<Span> {
    TagsFrom(s, 0)
  }

  /** The scan finds no tag exactly when no opener is ever followed by its closer. */
  lemma {:induction false} NoTagsFrom(s: string, p: nat)
    requires p <= |s|
    ensures TagsFrom(s, p) == [] <==> forall j :: p <= j < |s| ==> TagEndAt(s, j).None?
    decreases |s| - p
  {
    if p < |s| {
      NoTagsFrom(s, p + 1);
    }
  }

  /** Sorted, disjoint spans lying within `s` at or after index `p`. */
  predicate SpansWithin(s: string, p: nat, spans: seq<Span>)
    decreases |spans|
  {
    spans == [] || (p <= spans[0].start <= spans[0].end <= |s| && SpansWithin(s, spans[0].end, spans[1..]))
  }

  /** `s` from index `p` on, with the given spans cut out. */
  function DeleteSpans(s: string, p: nat, spans: seq<Span>): string
    requires p <= |s| && SpansWithin(s, p, spans)
    decreases |spans|
  {
    if spans == [] then s[p..]
    else s[p..spans[0].start] + DeleteSpans(s, spans[0].end, spans[1..])
  }

  /** The text of the given spans, concatenated. */
  function SpanTexts(s: string, p: nat, spans: seq<Span>): string
    requires p <= |s| && SpansWithin(s, p, spans)
    decreases |spans|
  {
    if spans == [] then ""
    else s[spans[0].start..spans[0].end] + SpanTexts(s, spans[0].end, spans[1..])
  }

  /** Text before the first span is kept verbatim. */
  lemma DeleteSpansPrefix(s: string, p: nat, q: nat, spans: seq<Span>)
    requires p <= q <= |s| && SpansWithin(s, q, spans)
    ensures SpansWithin(s, p, spans)
    ensures DeleteSpans(s, p, spans) == s[p..q] + DeleteSpans(s, q, spans)
  {
    if spans == [] {
      calc {
        DeleteSpans(s, p, spans);
        s[p..];
        s[p..q] + s[q..];
        s[p..q] + DeleteSpans(s, q, spans);
      }
    } else {
      var rest := DeleteSpans(s, spans[0].end, spans[1..]);
      calc {
        DeleteSpans(s, p, spans);
        s[p..spans[0].start] + rest;
        (s[p..q] + s[q..spans[0].start]) + rest;
        s[p..q] + (s[q..spans[0].start] + rest);
        s[p..q] + DeleteSpans(s, q, spans);
      }
    }
  }

  /** A span at the very start is cut out whole. */
  lemma DeleteSpansHead(s: string, p: nat, n: nat, spans: seq<Span>)
    requires p <= n <= |s| && SpansWithin(s, n, spans)
    ensures SpansWithin(s, p, [Span(p, n)] + spans)
    ensures DeleteSpans(s, p, [Span(p, n)] + spans) == DeleteSpans(s, n, spans)
  {
    var all := [Span(p, n)] + spans;
    assert all[0] == Span(p, n) && all[1..] == spans;
    assert s[p..p] == [];
  }

  /**
   * Cutting spans out splits the visible characters between what is kept
   * and what is cut; when what is kept is blank, the spans hold them all.
   */
  lemma {:induction false} DeleteSpansSplitsNonSpace(s: string, p: nat, spans: seq<Span>)
    requires p <= |s| && SpansWithin(s, p, spans)
    ensures |NonSpace(s[p..])| == |NonSpace(DeleteSpans(s, p, spans))| + |NonSpace(SpanTexts(s, p, spans))|
    ensures IsBlank(DeleteSpans(s, p, spans)) ==> NonSpace(s[p..]) == NonSpace(SpanTexts(s, p, spans))
    decreases |spans|
  {
    if spans == [] {
      BlankIffNoNonSpace(s[p..]);
    } else {
      var sp := spans[0];
      var rest := spans[1..];
      DeleteSpansSplitsNonSpace(s, sp.end, rest);
      DeleteSpansStep(s, p, spans);
      BlankIffNoNonSpace(DeleteSpans(s, sp.end, rest));
      NonSpaceAroundCut(s[p..sp.start], s[sp.start..sp.end], s[sp.end..], DeleteSpans(s, sp.end, rest), SpanTexts(s, sp.end, rest));
      BlankIffNoNonSpace(DeleteSpans(s, p, spans));
    }
  }

  /** The first span splits the text, what is kept and what is cut. */
  lemma DeleteSpansStep(s: string, p: nat, spans: seq<Span>)
    requires p <= |s| && SpansWithin(s, p, spans) && spans != []
    ensures SpansWithin(s, spans[0].end, spans[1..])
    ensures s[p..] == s[p..spans[0].start] + (s[spans[0].start..spans[0].end] + s[spans[0].end..])
    ensures DeleteSpans(s, p, spans) == s[p..spans[0].start] + DeleteSpans(s, spans[0].end, spans[1..])
    ensures SpanTexts(s, p, spans) == s[spans[0].start..spans[0].end] + SpanTexts(s, spans[0].end, spans[1..])
  {
    assert s[p..] == s[p..spans[0].start] + (s[spans[0].start..spans[0].end] + s[spans[0].end..]);
  }

  /**
   * One cut: if the tail `t` splits its visible characters between `kept` and
   * `cut`, then `a + m + t` splits them between `a + kept` and `m + cut`.
   */
  lemma NonSpaceAroundCut(a: string, m: string, t: string, kept: string, cut: string)
    requires |NonSpace(t)| == |NonSpace(kept)| + |NonSpace(cut)|
    requires NonSpace(kept) == [] ==> NonSpace(t) == NonSpace(cut)
    ensures |NonSpace(a + (m + t))| == |NonSpace(a + kept)| + |NonSpace(m + cut)|
    ensures NonSpace(a + kept) == [] ==> NonSpace(a + (m + t)) == NonSpace(m + cut)
  {
    NonSpaceAppend(a, m + t);
    NonSpaceAppend(m, t);
    NonSpaceAppend(a, kept);
    NonSpaceAppend(m, cut);
  }

  /** The tags found by the scan are sorted, disjoint spans of the text. */
  lemma {:induction false} TagsWithin(s: string, p: nat)
    requires p <= |s|
    ensures SpansWithin(s, p, TagsFrom(s, p))
    decreases |s| - p
  {
    if p < |s| {
      match TagEndAt(s, p)
      case Some(e) => TagsWithin(s, e);
      case None => TagsWithin(s, p + 1);
    }
  }

  /** `isGoodBreakPoint`: index `i` is at least five characters from every tag start and end. */
  predicate FarFromTags(i: int, tags: seq<Span>) {
    forall k :: 0 <= k < |tags| ==>
      Abs(i - tags[k].start) >= ProximityThreshold && Abs(i - tags[k].end) >= ProximityThreshold
  }

  /** The largest index below `hi` holding a safe-break character, or -1. */
  function LastSafeBreak(s: string, hi: nat): (r: int)
    requires hi <= |s|
    ensures -1 <= r < hi
    ensures r >= 0 ==> IsSafeBreakChar(s[r])
    ensures forall j :: r < j < hi ==> !IsSafeBreakChar(s[j])
  {
    if hi == 0 then -1
    else if IsSafeBreakChar(s[hi - 1]) then hi - 1
    else LastSafeBreak(s, hi - 1)
  }

  /** A break the tag-aware search accepts: far enough in, a safe-break character, far from every tag. */
  predicate GoodBreak(s: string, tags: seq<Span>, i: nat)
    requires i < |s|
  {
    MinLengthToSplit <= i && IsSafeBreakChar(s[i]) && FarFromTags(i, tags)
  }

  /** The largest index below `hi` that is a good break, or -1. */
  function LastGoodBreak(s: string, tags: seq<Span>, hi: nat): (r: int)
    requires hi <= |s|
    ensures -1 <= r < hi
    ensures r >= 0 ==> GoodBreak(s, tags, r)
    ensures forall j :: r < j < hi ==> !GoodBreak(s, tags, j)
  {
    if hi <= MinLengthToSplit then -1
    else if GoodBreak(s, tags, hi - 1) then hi - 1
    else LastGoodBreak(s, tags, hi - 1)
  }

  /** `findBasicSafeBreakPoint`: one past the last safe-break character, or -1. */
  function BasicBreakPoint(s: string): int {
    if |s| < MinLengthToSplit then -1
    else
      var i := LastSafeBreak(s, |s|);
      if i < 0 then -1 else i + 1
  }

  /** `findSafeBreakPointWithExpressions`: where the buffer may be cut, or -1. */
  function BreakPoint(s: string): int {
    if |s| < MinLengthToSplit then -1
    else if Tags(s) == [] then BasicBreakPoint(s)
    else
      var i := LastGoodBreak(s, Tags(s), |s|);
      if i < 0 then -1 else i + 1
  }

  /**
   * Where `addChunk` cuts the accumulated string `s` (0: no cut). Nothing is
   * cut from a string that ends in an open tag or is shorter than twenty
   * characters; a cut always lands right after a safe-break character.
   */
  function SplitPoint(s: string): (k: nat)
    ensures k <= |s|
    ensures EndsInOpenTag(s) ==> k == 0
    ensures |s| < MinLengthToSplit ==> k == 0
    ensures k > 0 ==> IsSafeBreakChar(s[k - 1])
  {
    if EndsInOpenTag(s) then 0
    else
      var b := BreakPoint(s);
      if b < 0 then 0 else b
  }

  /** What `addChunk` returns for a cut-off prefix: the prefix, unless it is blank. */
  function Emitted(piece: string): (r: seq<string>)
    ensures |r| <= 1
    ensures forall seg :: seg in r ==> !IsBlank(seg) && seg == piece
    ensures IsBlank(piece) <==> r == []
  {
    if IsBlank(piece) then [] else [piece]
  }

  /**
   * Without complete tags, a string that may be cut is cut right after its last
   * safe-break character, wherever that is; with no safe-break character it is kept whole.
   */
  lemma SplitWithoutTags(s: string)
    requires !EndsInOpenTag(s) && |s| >= MinLengthToSplit && Tags(s) == []
    ensures var k := SplitPoint(s);
      && (k > 0 ==> IsSafeBreakChar(s[k - 1]))
      && (forall j :: k <= j < |s| ==> !IsSafeBreakChar(s[j]))
  {
  }

  /**
   * With complete tags, the cut follows the largest index i >= 20 whose
   * character is a safe break and which lies at least five characters from
   * every tag start and end; with no such index nothing is cut.
   */
  lemma SplitWithTags(s: string)
    requires !EndsInOpenTag(s) && |s| >= MinLengthToSplit && Tags(s) != []
    ensures var k := SplitPoint(s);
      && (k > 0 ==> k - 1 >= MinLengthToSplit && IsSafeBreakChar(s[k - 1]) && FarFromTags(k - 1, Tags(s)))
      && (forall j :: k <= j < |s| && j >= MinLengthToSplit ==> !(IsSafeBreakChar(s[j]) && FarFromTags(j, Tags(s))))
  {
    var i := LastGoodBreak(s, Tags(s), |s|);
    forall j | SplitPoint(s) <= j < |s| && j >= MinLengthToSplit
      ensures !(IsSafeBreakChar(s[j]) && FarFromTags(j, Tags(s)))
    {
      assert !GoodBreak(s, Tags(s), j);
    }
  }

  /**
   * A complete tag that contains a space can be cut in the middle: the cut is
   * kept five characters from the tag's ends, not outside the tag, so the
   * emitted segment ends in an unterminated `<`.
   */
  lemma SplitCanCutInsideTag()
    ensures var s := seq(20, _ => 'a') + "<abcd efghi>";
      var k := SplitPoint(s);
      && !EndsInOpenTag(s)
      && k == 26 && Emitted(s[..k]) == [s[..26]]
      && EndsInOpenTag(s[..k])
  {
    CutInsideTag(seq(20, _ => 'a') + "<abcd efghi>");
  }

  lemma CutInsideTag(s: string)
    requires s == seq(20, _ => 'a') + "<abcd efghi>"
    ensures var k := SplitPoint(s);
      && !EndsInOpenTag(s)
      && k == 26 && Emitted(s[..k]) == [s[..26]]
      && EndsInOpenTag(s[..k])
  {
    assert |s| == 32;
    LineOfOneTag(s);
    LineOfOneTagClosed(s);
    assert LastGoodBreak(s, [Span(20, 32)], 26) == 25;
    assert LastGoodBreak(s, [Span(20, 32)], 32) == 25;
    assert !IsBlank(s[..26]) by {
      assert s[..26][0] == 'a';
    }
    assert EndsInOpenTag(s[..26]) by {
      assert OpensUnclosed(s[..26], 20);
    }
  }

  lemma LineOfOneTag(s: string)
    requires s == seq(20, _ => 'a') + "<abcd efghi>"
    ensures |s| == 32 && Tags(s) == [Span(20, 32)]
    ensures forall j :: 0 <= j < 20 ==> s[j] == 'a'
  {
    assert |s| == 32;
    assert forall j :: 0 <= j < 20 ==> s[j] == 'a';
    assert s[20..] == "<abcd efghi>";
    var tag := s[20..];
    assert s[21..31] == tag[1..11];
    assert '>' !in tag[1..11];
    FindCharAt(s, '>', 21, 31);
    assert TagEndAt(s, 20) == Some(32);
    TagsPrefixSkip(s, 0, 20);
    assert TagsFrom(s, 20) == [Span(20, 32)] + TagsFrom(s, 32);
  }

  lemma LineOfOneTagClosed(s: string)
    requires s == seq(20, _ => 'a') + "<abcd efghi>"
    ensures !EndsInOpenTag(s)
  {
    assert s[20..] == "<abcd efghi>";
    forall p | 0 <= p < |s| ensures !OpensUnclosed(s, p) {
      if p == 20 {
        assert s[p + 1..][10] == '>';
      } else if p > 20 {
        assert s[p] == s[20..][p - 20];
      }
    }
  }

  /** Positions that start no tag are skipped by the scan. */
  lemma {:induction false} TagsPrefixSkip(s: string, p: nat, q: nat)
    requires p <= q <= |s|
    requires forall j :: p <= j < q ==> TagEndAt(s, j).None?
    ensures TagsFrom(s, p) == TagsFrom(s, q)
    decreases q - p
  {
    if p < q {
      TagsPrefixSkip(s, p + 1, q);
    }
  }

  /** The strings joined end to end. */
  function Concat(ss: seq<string>): string {
    if ss == [] then "" else ss[0] + Concat(ss[1..])
  }

  lemma {:induction false} ConcatSnoc(ss: seq<string>, t: string)
    ensures Concat(ss + [t]) == Concat(ss) + t
  {
    if ss == [] {
      assert ss + [t] == [t];
    } else {
      assert (ss + [t])[1..] == ss[1..] + [t];
      ConcatSnoc(ss[1..], t);
    }
  }

  /**
   * Feeding `chunks` one after another to an accumulator holding `b` that is
   * cut where `cut` says: every prefix cut off (emitted or dropped), in order,
   * and the final accumulator.
   */
  function FeedWith(cut: string -> nat, b: string, chunks: seq<string>): (r: (seq<string>, string))
    requires forall s :: cut(s) <= |s|
    ensures |r.0| == |chunks|
    decreases |chunks|
  {
    if chunks == [] then ([], b)
    else
      var s := b + chunks[0];
      var next := FeedWith(cut, s[cut(s)..], chunks[1..]);
      ([s[..cut(s)]] + next.0, next.1)
  }

  /** What `addChunk` does to an accumulator holding `b`, delta after delta. */
  function Feed(b: string, chunks: seq<string>): (r: (seq<string>, string))
    ensures |r.0| == |chunks|
  {
    FeedWith(SplitPoint, b, chunks)
  }

  /** The segments `addChunk` returns for a sequence of cut-off prefixes. */
  function Segments(pieces: seq<string>): seq<string> {
    if pieces == [] then [] else Emitted(pieces[0]) + Segments(pieces[1..])
  }

  /** Feeding one more delta adds the prefix it cuts off and nothing else. */
  lemma {:induction false} FeedWithSnoc(cut: string -> nat, b: string, chunks: seq<string>, c: string)
    requires forall s :: cut(s) <= |s|
    ensures var prev := FeedWith(cut, b, chunks);
      var s := prev.1 + c;
      FeedWith(cut, b, chunks + [c]) == (prev.0 + [s[..cut(s)]], s[cut(s)..])
    decreases |chunks|
  {
    if chunks == [] {
      assert chunks + [c] == [c];
      var s := b + c;
      var next := FeedWith(cut, s[cut(s)..], []);
      assert FeedWith(cut, b, [c]) == ([s[..cut(s)]] + next.0, next.1);
      assert [s[..cut(s)]] + [] == [] + [s[..cut(s)]];
    } else {
      assert (chunks + [c])[1..] == chunks[1..] + [c];
      assert (chunks + [c])[0] == chunks[0];
      var s0 := b + chunks[0];
      FeedWithSnoc(cut, s0[cut(s0)..], chunks[1..], c);
      var next := FeedWith(cut, s0[cut(s0)..], chunks[1..]);
      var s := next.1 + c;
      assert FeedWith(cut, b, chunks) == ([s0[..cut(s0)]] + next.0, next.1);
      assert FeedWith(cut, b, chunks + [c]) == ([s0[..cut(s0)]] + FeedWith(cut, s0[cut(s0)..], chunks[1..] + [c]).0, FeedWith(cut, s0[cut(s0)..], chunks[1..] + [c]).1);
      Assoc([s0[..cut(s0)]], next.0, [s[..cut(s)]]);
    }
  }

  /** `addChunk` on one more delta: the accumulator's new cut and contents. */
  lemma FeedSnoc(b: string, chunks: seq<string>, c: string)
    ensures var prev := Feed(b, chunks);
      var s := prev.1 + c;
      var k := SplitPoint(s);
      Feed(b, chunks + [c]) == (prev.0 + [s[..k]], s[k..])
  {
    FeedWithSnoc(SplitPoint, b, chunks, c);
  }

  lemma {:induction false} SegmentsSnoc(pieces: seq<string>, p: string)
    ensures Segments(pieces + [p]) == Segments(pieces) + Emitted(p)
  {
    if pieces == [] {
      assert pieces + [p] == [p];
    } else {
      assert (pieces + [p])[1..] == pieces[1..] + [p];
      SegmentsSnoc(pieces[1..], p);
    }
  }

  lemma {:induction false} FeedWithReconstructs(cut: string -> nat, b: string, chunks: seq<string>)
    requires forall s :: cut(s) <= |s|
    ensures Concat(FeedWith(cut, b, chunks).0) + FeedWith(cut, b, chunks).1 == b + Concat(chunks)
    decreases |chunks|
  {
    if chunks != [] {
      var head, rest := FeedWithStep(cut, b, chunks);
      var next := FeedWith(cut, rest, chunks[1..]);
      FeedWithReconstructs(cut, rest, chunks[1..]);
      ConcatCons(head, next.0);
      Assoc(head, Concat(next.0), next.1);
      Assoc(head, rest, Concat(chunks[1..]));
      Assoc(b, chunks[0], Concat(chunks[1..]));
    }
  }

  /** The first delta splits the accumulator into the prefix cut off and the rest fed onwards. */
  lemma FeedWithStep(cut: string -> nat, b: string, chunks: seq<string>) returns (head: string, rest: string)
    requires forall s :: cut(s) <= |s|
    requires chunks != []
    ensures head + rest == b + chunks[0]
    ensures FeedWith(cut, b, chunks) == ([head] + FeedWith(cut, rest, chunks[1..]).0, FeedWith(cut, rest, chunks[1..]).1)
  {
    var s := b + chunks[0];
    head, rest := s[..cut(s)], s[cut(s)..];
    assert head + rest == s;
  }

  /**
   * Nothing is lost or reordered: the cut-off prefixes followed by what stays
   * in the accumulator spell out the initial contents followed by every delta.
   */
  lemma FeedReconstructs(b: string, chunks: seq<string>)
    ensures Concat(Feed(b, chunks).0) + Feed(b, chunks).1 == b + Concat(chunks)
  {
    FeedWithReconstructs(SplitPoint, b, chunks);
  }

  lemma Assoc<T>(a: seq<T>, b: seq<T>, c: seq<T>)
    ensures a + (b + c) == (a + b) + c
  {
  }

  lemma ConcatCons(x: string, ys: seq<string>)
    ensures Concat([x] + ys) == x + Concat(ys)
  {
    assert ([x] + ys)[1..] == ys;
  }

  /** Returned segments differ from the cut-off prefixes only by blank prefixes dropped. */
  lemma {:induction false} SegmentsKeepText(pieces: seq<string>)
    ensures NonSpace(Concat(Segments(pieces))) == NonSpace(Concat(pieces))
    ensures forall seg :: seg in Segments(pieces) ==> !IsBlank(seg)
  {
    if pieces != [] {
      SegmentsKeepText(pieces[1..]);
      NonSpaceAppend(pieces[0], Concat(pieces[1..]));
      NonSpaceAppend(Concat(Emitted(pieces[0])), Concat(Segments(pieces[1..])));
      ConcatAppend(Emitted(pieces[0]), Segments(pieces[1..]));
      if IsBlank(pieces[0]) {
        NonSpaceOfBlank(pieces[0]);
      } else {
        assert Concat(Emitted(pieces[0])) == pieces[0];
      }
    }
  }

  lemma {:induction false} ConcatAppend(xs: seq<string>, ys: seq<string>)
    ensures Concat(xs + ys) == Concat(xs) + Concat(ys)
  {
    if xs == [] {
      assert xs + ys == ys;
    } else {
      assert (xs + ys)[1..] == xs[1..] + ys;
      ConcatAppend(xs[1..], ys);
    }
  }

  /**
   * Reconstruction of a whole stream: the segments `addChunk` returns for every
   * delta, followed by what `flush` returns, hold every non-whitespace character
   * of the deltas in order; only blank prefixes (and a blank remainder) are dropped.
   */
  lemma StreamReconstructs(chunks: seq<string>)
    ensures var fed := Feed("", chunks);
      var flushed := if IsBlank(fed.1) then [] else [fed.1];
      NonSpace(Concat(Segments(fed.0) + flushed)) == NonSpace(Concat(chunks))
  {
    var fed := Feed("", chunks);
    var flushed := if IsBlank(fed.1) then [] else [fed.1];
    FeedReconstructs("", chunks);
    assert Concat(fed.0) + fed.1 == Concat(chunks);
    SegmentsKeepText(fed.0);
    ConcatAppend(Segments(fed.0), flushed);
    NonSpaceAppend(Concat(Segments(fed.0)), Concat(flushed));
    NonSpaceAppend(Concat(fed.0), fed.1);
    if IsBlank(fed.1) {
      NonSpaceOfBlank(fed.1);
    } else {
      assert Concat(flushed) == fed.1;
    }
  }

  /**
   * Two deltas that open and then close a tag: nothing is cut while the tag is
   * open, and the whole 18-character line stays below the minimum length.
   */
  lemma OpenTagAcrossTwoDeltas()
    ensures Feed("", ["Hola <hap", "py> mundo"]) == (["", ""], "Hola <happy> mundo")
  {
    TagSplitOverDeltas("Hola <hap", "py> mundo");
    JoinedLine("Hola <hap", "py> mundo");
  }

  lemma JoinedLine(c1: string, c2: string)
    requires c1 == "Hola <hap" && c2 == "py> mundo"
    ensures c1 + c2 == "Hola <happy> mundo"
  {
  }

  lemma TagSplitOverDeltas(c1: string, c2: string)
    requires c1 == "Hola <hap" && c2 == "py> mundo"
    ensures Feed("", [c1, c2]) == (["", ""], c1 + c2)
  {
    FeedWithTwo(SplitPoint, "", c1, c2);
    assert "" + c1 == c1;
    OpenDeltaNotCut(c1);
    assert c1[0..] == c1;
    assert |c1 + c2| == 18;
  }

  lemma FeedWithTwo(cut: string -> nat, b: string, c1: string, c2: string)
    requires forall s :: cut(s) <= |s|
    ensures var s1 := b + c1;
      var s2 := s1[cut(s1)..] + c2;
      FeedWith(cut, b, [c1, c2]) == ([s1[..cut(s1)], s2[..cut(s2)]], s2[cut(s2)..])
  {
    var s1 := b + c1;
    var s2 := s1[cut(s1)..] + c2;
    assert [c1, c2][1..] == [c2];
    assert [c2][1..] == [];
    assert FeedWith(cut, s2[cut(s2)..], []) == ([], s2[cut(s2)..]);
    assert FeedWith(cut, s1[cut(s1)..], [c2]) == ([s2[..cut(s2)]] + [], s2[cut(s2)..]);
    assert [c1, c2][0] == c1;
    assert FeedWith(cut, b, [c1, c2]) == ([s1[..cut(s1)]] + FeedWith(cut, s1[cut(s1)..], [c2]).0, s2[cut(s2)..]);
    assert [s1[..cut(s1)]] + ([s2[..cut(s2)]] + []) == [s1[..cut(s1)], s2[..cut(s2)]];
  }

  lemma OpenDeltaNotCut(s1: string)
    requires s1 == "Hola <hap"
    ensures SplitPoint(s1) == 0
  {
    assert s1[6..] == "hap";
    assert OpensUnclosed(s1, 5);
  }

  /**
   * The accumulator. `addChunk` appends a delta and cuts off at most one
   * prefix; `flush` hands out whatever non-blank text is left; `clear` drops it.
   */
  class ChunkBuffer {
    var buffer: string

    constructor()
      ensures buffer == ""
    {
      buffer := "";
    }

    /**
     * The new buffer is the old one plus the delta, minus the prefix that was
     * cut off; the prefix is returned unless it is blank.
     */
    method AddChunk(chunk: string) returns (completeTexts: seq<string>)
      modifies this
      ensures var s := old(buffer) + chunk;
        var k := SplitPoint(s);
        buffer == s[k..] && completeTexts == Emitted(s[..k])
    {
      buffer := buffer + chunk;
      var incomplete := HasIncompleteExpression();
      if incomplete {
        return [];
      }
      var safeBreakPoint := FindSafeBreakPointWithExpressions();
      if safeBreakPoint == -1 {
        return [];
      }
      var textToProcess := buffer[..safeBreakPoint];
      buffer := buffer[safeBreakPoint..];
      completeTexts := [];
      if !IsBlank(textToProcess) {
        completeTexts := completeTexts + [textToProcess];
      }
    }

    /** Returns the remaining text unless it is blank; either way the buffer ends empty. */
    method Flush() returns (r: seq<string>)
      modifies this
      ensures buffer == ""
      ensures r == (if IsBlank(old(buffer)) then [] else [old(buffer)])
    {
      if IsBlank(buffer) {
        buffer := "";
        return [];
      }
      var result := buffer;
      buffer := "";
      return [result];
    }

    /** Empties the buffer, returning nothing. */
    method Clear()
      modifies this
      ensures buffer == ""
    {
      buffer := "";
    }

    /** `getBufferContent`: the unflushed text, unchanged. */
    method GetBufferContent() returns (r: string)
      ensures r == buffer
    {
      return buffer;
    }

    /** The buffer ends in an unterminated tag: a scan from the end that remembers which closers it has seen. */
    method HasIncompleteExpression() returns (incomplete: bool)
      ensures incomplete == EndsInOpenTag(buffer)
    {
      var seenAngle, seenSquare := false, false;
      var i := |buffer|;
      while i > 0
        invariant 0 <= i <= |buffer|
        invariant seenAngle == ('>' in buffer[i..])
        invariant seenSquare == (']' in buffer[i..])
        invariant forall j :: i <= j < |buffer| ==> !OpensUnclosed(buffer, j)
      {
        i := i - 1;
        assert buffer[i..] == [buffer[i]] + buffer[i + 1..];
        var c := buffer[i];
        if (c == '<' && !seenAngle) || (c == '[' && !seenSquare) {
          assert OpensUnclosed(buffer, i);
          return true;
        }
        seenAngle := seenAngle || c == '>';
        seenSquare := seenSquare || c == ']';
      }
      return false;
    }

    /** `findSafeBreakPointWithExpressions`. */
    method FindSafeBreakPointWithExpressions() returns (r: int)
      ensures r == BreakPoint(buffer)
    {
      if |buffer| < MinLengthToSplit {
        return -1;
      }
      var expressions := Tags(buffer);
      if |expressions| == 0 {
        r := FindBasicSafeBreakPoint();
        return;
      }
      var i := |buffer| - 1;
      while i >= MinLengthToSplit
        invariant MinLengthToSplit - 1 <= i < |buffer|
        invariant LastGoodBreak(buffer, expressions, |buffer|) == LastGoodBreak(buffer, expressions, i + 1)
      {
        if IsSafeBreakChar(buffer[i]) {
          var good := IsGoodBreakPoint(i, expressions);
          if good {
            return i + 1;
          }
        }
        i := i - 1;
      }
      return -1;
    }

    /** `isGoodBreakPoint`: checks every tag in turn. */
    method IsGoodBreakPoint(breakPoint: int, expressions: seq<Span>) returns (good: bool)
      ensures good == FarFromTags(breakPoint, expressions)
    {
      for k := 0 to |expressions|
        invariant FarFromTags(breakPoint, expressions[..k])
      {
        var exprStart := expressions[k].start;
        var exprEnd := expressions[k].end;
        if Abs(breakPoint - exprStart) < ProximityThreshold || Abs(breakPoint - exprEnd) < ProximityThreshold {
          return false;
        }
      }
      assert expressions[..|expressions|] == expressions;
      return true;
    }

    /** `findBasicSafeBreakPoint`: a backward scan for the last safe-break character. */
    method FindBasicSafeBreakPoint() returns (r: int)
      ensures r == BasicBreakPoint(buffer)
    {
      if |buffer| < MinLengthToSplit {
        return -1;
      }
      var i := |buffer| - 1;
      while i >= 0
        invariant -1 <= i < |buffer|
        invariant LastSafeBreak(buffer, |buffer|) == LastSafeBreak(buffer, i + 1)
      {
        if IsSafeBreakChar(buffer[i]) {
          return i + 1;
        }
        i := i - 1;
      }
      return -1;
    }
  }

  /**
   * `connectionBuffers`: one accumulator per connection, created on first use
   * and removed when the connection closes.
   */
  class BufferRegistry {
    var buffers: map<object, ChunkBuffer>

    constructor()
      ensures buffers == map[]
    {
      buffers := map[];
    }

    /** The connection's accumulator; a fresh empty one if it had none. No other entry changes. */
    method GetOrCreateBuffer(ws: object) returns (b: ChunkBuffer)
      modifies this
      ensures ws in buffers && b == buffers[ws]
      ensures ws in old(buffers) ==> buffers == old(buffers) && b == old(buffers[ws])
      ensures ws !in old(buffers) ==> fresh(b) && b.buffer == "" && buffers == old(buffers)[ws := b]
    {
      if ws !in buffers {
        var created := new ChunkBuffer();
        buffers := buffers[ws := created];
      }
      b := buffers[ws];
    }

    /** Forgets the connection's accumulator; every other entry is kept. */
    method DeleteBufferForConnection(ws: object)
      modifies this
      ensures buffers == old(buffers) - {ws}
    {
      buffers := buffers - {ws};
    }
  }
}
