/**
 * The turn handler of the WebSocket server: dispatch of a client frame, the
 * streaming turn for a `text-input` (segmentation, tag extraction, speech
 * synthesis per segment) and its error recovery.
 *
 * The outside world is a parameter (`Env`): the language-model stream, the
 * outcome of the `markAsRead` call, and, for each segment the turn handles,
 * the cleaner's vocabulary (or its failure) and the outcome of speech
 * synthesis. What the turn sends is specified by the functions `SegmentFrames`, `TurnFrames` and `EventFrames`; the methods
 * below do it step by step and are proved to send exactly those frames.
 */
module Events {
  import opened Wrappers
  import opened Text
  import opened Json
  import opened Chunking
  import opened CleanText
  import opened WsUtils

  const InvalidFormatMessage: string := "Formato de mensaje inválido."
  const UnknownEventPrefix: string := "Evento desconocido: "
  const InternalErrorMessage: string := "Error interno del servidor"

  /**
   * What `streamResponse` gives back: nothing (`undefined`), a rejection
   * carrying an error message, or a text stream that yields `chunks` and then
   * either ends or throws with `failure`'s message. A thrown value without a
   * message is represented by the empty message.
   */
  datatype StreamResult =
    | NoStream
    | Rejects(message: string)
    | Stream(chunks: seq<string>, failure: Option<string>)

  /**
   * Everything a turn depends on besides the client message and the socket:
   * the model's answer, whether `markAsRead` throws (and with what message),
   * and, for the `k`-th segment the turn handles (counting from 0), the
   * expression and motion vocabulary its cleaning reads (`vocabs[k]`; no
   * entry when reading it throws) and the base64 audio synthesis gives for
   * its cleaned text (`speech[(k, text)]`; no entry when synthesis throws).
   * Each segment reads the settings files and calls synthesis afresh, so the
   * outcomes may differ from segment to segment.
   */
  datatype Env = Env(
    stream: StreamResult,
    markAsRead: Option<string>,
    vocabs: map<nat, Vocabulary>,
    speech: map<(nat, string), string>)

  /** The vocabulary the turn's `k`-th segment reads, or `None` when reading it throws. */
  function VocabFor(env: Env, k: nat): Option<Vocabulary> {
    if k in env.vocabs then Some(env.vocabs[k]) else None
  }

  /** The audio synthesis gives for the cleaned text `t` of the turn's `k`-th segment, or `None` when it throws. */
  function SpeechFor(env: Env, k: nat, t: string): Option<string> {
    if (k, t) in env.speech then Some(env.speech[(k, t)]) else None
  }

  // ---------------------------------------------------------------------------
  // Payloads
  // ---------------------------------------------------------------------------

  /** `error.message || 'Error interno del servidor'`. */
  function ErrorText(message: string): (r: string)
    ensures r != ""
    ensures message != "" ==> r == message
  {
    if message != "" then message else InternalErrorMessage
  }

  /** `{ message: error.message || …, originalEvent: 'text-input' }`. */
  function TurnErrorPayload(message: string): Json {
    JObject(map["message" := JString(ErrorText(message)), "originalEvent" := JString("text-input")])
  }

  function KindName(kind: TagKind): string {
    match kind
    case Expression => "expression"
    case Motion => "motion"
  }

  /** A removed tag as the client receives it. */
  function RemovedJson(rv: RemovedValue): Json {
    JObject(map["value" := JString(rv.value), "position" := JNumber(rv.position),
                 "cleanValue" := JString(rv.cleanValue), "type" := JString(KindName(rv.kind))])
  }

  function RemovedListJson(rvs: seq<RemovedValue>): (r: Json)
    ensures r.JArray? && |r.items| == |rvs|
    ensures forall k :: 0 <= k < |rvs| ==> r.items[k] == RemovedJson(rvs[k])
  {
    JArray(seq(|rvs|, k requires 0 <= k < |rvs| => RemovedJson(rvs[k])))
  }

  /** The 'audio' payload for a segment that was spoken. */
  function SpokenPayload(audio: string, segment: string, rvs: seq<RemovedValue>): Json {
    JObject(map["audio" := JString(audio), "type" := JString("audio"),
                 "text" := JString(segment), "payload" := RemovedListJson(rvs)])
  }

  /** The 'audio' payload for a segment that was nothing but recognised tags. */
  function SilentPayload(segment: string, rvs: seq<RemovedValue>): Json {
    JObject(map["audio" := JNull, "text" := JString(segment), "payload" := RemovedListJson(rvs)])
  }

  // ---------------------------------------------------------------------------
  // Specification of what is sent
  // ---------------------------------------------------------------------------

  /**
   * The audio part of `processCompleteText` for a segment longer than two
   * characters whose cleaning does not throw: one 'audio' frame when the
   * cleaned text has visible content and synthesis succeeds, or a silent
   * 'audio' frame when there is no visible content but tags were removed.
   * Failures of cleaning and synthesis send nothing. `k` is the segment's
   * place among the turn's segments.
   */
  function AudioFrames(segment: string, k: nat, env: Env): (r: seq<Json>)
    ensures |r| <= 1
    ensures |segment| <= 2 || VocabFor(env, k).None? ==> r == []
  {
    if |segment| <= 2 || VocabFor(env, k).None? then []
    else
      var (cleanedText, removedValues) := Clean(segment, VocabFor(env, k).value);
      CleanedAudio(cleanedText, removedValues, segment, k, env)
  }

  /** The audio frame, if any, for a segment that cleaned to `cleanedText` with `removedValues` taken out. */
  function CleanedAudio(cleanedText: string, removedValues: seq<RemovedValue>, segment: string, k: nat, env: Env): seq<Json> {
    if !IsBlank(cleanedText) then
      match SpeechFor(env, k, cleanedText)
      case None => []
      case Some(audio) => [Envelope("audio", SpokenPayload(audio, segment, removedValues), None)]
    else if |removedValues| > 0 then
      [Envelope("audio", SilentPayload(segment, removedValues), None)]
    else []
  }

  /** `processCompleteText` on the turn's `k`-th segment: the segment itself as 'full-text', then its audio frame if any. */
  function SegmentFrames(segment: string, k: nat, requestId: Option<Json>, env: Env): seq<Json> {
    [Envelope("full-text", JString(segment), requestId)] + AudioFrames(segment, k, env)
  }

  /** `SegmentFrames` for one request. */
  function FramesOfSegment(requestId: Option<Json>, env: Env): (nat, string) -> seq<Json> {
    (k: nat, segment: string) => SegmentFrames(segment, k, requestId, env)
  }

  /** Applying `FramesOfSegment` is `SegmentFrames`; a step the solver is cheaper for being given. */
  lemma FramesOfSegmentAt(requestId: Option<Json>, env: Env, k: nat, segment: string)
    ensures FramesOfSegment(requestId, env)(k, segment) == SegmentFrames(segment, k, requestId, env)
  {
  }

  /**
   * The frames for several segments handled one after another, the first
   * being the turn's `from`-th: segment `j` gives `frames(from + j, segments[j])`.
   */
  function FramesFor(segments: seq<string>, from: nat, frames: (nat, string) -> seq<Json>): seq<Json>
    decreases |segments|
  {
    if segments == [] then []
    else FramesFor(segments[..|segments| - 1], from, frames) + frames(from + |segments| - 1, segments[|segments| - 1])
  }

  /** The frames for several segments handled one after another, the first being the turn's `from`-th. */
  function SegmentsFrames(segments: seq<string>, from: nat, requestId: Option<Json>, env: Env): seq<Json> {
    FramesFor(segments, from, FramesOfSegment(requestId, env))
  }

  /** The deltas the turn loop uses: empty chunks are skipped. */
  function NonEmpty(chunks: seq<string>): seq<string>
    decreases |chunks|
  {
    if chunks == [] then []
    else NonEmpty(chunks[..|chunks| - 1]) + (if chunks[|chunks| - 1] == "" then [] else [chunks[|chunks| - 1]])
  }

  /** The segments `addChunk` returns, delta by delta, for a buffer that held `b`. */
  function StreamSegments(b: string, deltas: seq<string>): seq<string> {
    Segments(Feed(b, deltas).0)
  }

  /** What `flush` returns for a buffer holding `rest`. */
  function Flushed(rest: string): (r: seq<string>)
    ensures IsBlank(rest) ==> r == []
    ensures !IsBlank(rest) ==> r == [rest]
  {
    if IsBlank(rest) then [] else [rest]
  }

  function ThinkingFrame(): Json {
    Envelope("full-text", JString("thinking"), None)
  }

  function TurnErrorFrame(message: string, requestId: Option<Json>): Json {
    Envelope("error", TurnErrorPayload(message), requestId)
  }

  function CompleteFrame(message: Json): Json {
    Envelope("complete", JObject(map["message" := message]), None)
  }

  /**
   * `textInput`: every frame a turn on a connection whose buffer holds `b`
   * offers to the socket, in order.
   */
  function TurnFrames(message: Json, env: Env, b: string): seq<Json> {
    var requestId := Get(message, "requestId");
    if !Truthy(Get(message, "text")) then []
    else
      match env.stream
      case NoStream => []
      case Rejects(m) => [TurnErrorFrame(m, requestId)]
      case Stream(chunks, failure) =>
        [ThinkingFrame()]
        + if env.markAsRead.Some? then [TurnErrorFrame(env.markAsRead.value, requestId)]
          else
            var deltas := NonEmpty(chunks);
            var segments := StreamSegments(b, deltas);
            SegmentsFrames(segments, 0, requestId, env)
            + if failure.Some? then [TurnErrorFrame(failure.value, requestId)]
              else SegmentsFrames(Flushed(Feed(b, deltas).1), |segments|, requestId, env) + [CompleteFrame(message)]
  }

  /** The turn runs to its end: text, a stream, no exception anywhere. */
  predicate Completes(message: Json, env: Env) {
    && Truthy(Get(message, "text"))
    && env.stream.Stream? && env.stream.failure.None?
    && env.markAsRead.None?
  }

  /** The turn stops at the `try`'s `catch`. */
  predicate Throws(message: Json, env: Env) {
    && Truthy(Get(message, "text"))
    && (env.stream.Rejects? || (env.stream.Stream? && (env.markAsRead.Some? || env.stream.failure.Some?)))
  }

  /** The connection's buffer after the turn: emptied by `flush` or `clear`, untouched by an early return. */
  function BufferAfter(message: Json, env: Env, b: string): string {
    if Completes(message, env) || Throws(message, env) then "" else b
  }

  /** What memory records for a finished turn: the user's text, then the whole answer. */
  datatype ChatEntry = UserEntry(input: Json) | AiEntry(answer: string)

  function MemoryAdded(message: Json, env: Env): (r: seq<ChatEntry>)
    ensures !Completes(message, env) ==> r == []
    ensures Completes(message, env) ==> r == [UserEntry(message.fields["text"]), AiEntry(Concat(env.stream.chunks))]
  {
    if Completes(message, env) then
      ConcatNonEmpty(env.stream.chunks);
      [UserEntry(message.fields["text"]), AiEntry(Concat(NonEmpty(env.stream.chunks)))]
    else []
  }

  /**
   * `handleEvents`: the frames one incoming frame leads to, with the buffer
   * of the connection holding `b`.
   */
  function EventFrames(parsed: Option<Json>, env: Env, b: string): seq<Json> {
    if !Truthy(parsed) then [Envelope("error", JObject(map["message" := JString(InvalidFormatMessage)]), None)]
    else
      var eventType := Get(parsed.value, "type");
      if eventType == Some(JString("text-input")) then TurnFrames(parsed.value, env, b)
      else if eventType == Some(JString("fetch-backgrounds")) then [BackgroundFilesFrame()]
      else [Envelope("error", JObject(map["message" := JString(UnknownEventPrefix + Display(eventType))]), None)]
  }

  /**
   * `fetchBackgrounds`: `getImageFiles` is called without a directory, so
   * reading the directory throws inside it and the list is always empty.
   */
  function BackgroundFilesFrame(): Json {
    Envelope("background-files", JObject(map["files" := JArray([])]), None)
  }

  // ---------------------------------------------------------------------------
  // Properties of the specification
  // ---------------------------------------------------------------------------

  lemma {:induction false} ConcatNonEmpty(chunks: seq<string>)
    ensures Concat(NonEmpty(chunks)) == Concat(chunks)
    decreases |chunks|
  {
    if chunks != [] {
      var init := chunks[..|chunks| - 1];
      var last := chunks[|chunks| - 1];
      ConcatNonEmpty(init);
      assert chunks == init + [last];
      ConcatSnoc(init, last);
      if last == "" {
        assert NonEmpty(chunks) == NonEmpty(init) + [];
        assert NonEmpty(init) + [] == NonEmpty(init);
        assert Concat(init) + last == Concat(init);
      } else {
        ConcatSnoc(NonEmpty(init), last);
      }
    }
  }

  /** Segments handled after `xs` continue the count where `xs` left it. */
  lemma {:induction false} FramesForAppend(xs: seq<string>, ys: seq<string>, from: nat, frames: (nat, string) -> seq<Json>)
    ensures FramesFor(xs + ys, from, frames) == FramesFor(xs, from, frames) + FramesFor(ys, from + |xs|, frames)
    decreases |ys|
  {
    if ys == [] {
      assert xs + ys == xs;
    } else {
      var init, y := ys[..|ys| - 1], ys[|ys| - 1];
      var front, middle, last := FramesFor(xs, from, frames), FramesFor(init, from + |xs|, frames), frames(from + |xs| + |init|, y);
      calc {
        FramesFor(xs + ys, from, frames);
        { assert (xs + ys)[..|xs + ys| - 1] == xs + init; assert (xs + ys)[|xs + ys| - 1] == y; }
        FramesFor(xs + init, from, frames) + last;
        { FramesForAppend(xs, init, from, frames); }
        (front + middle) + last;
        { Assoc(front, middle, last); }
        front + (middle + last);
      }
    }
  }

  /** One more segment adds its own frames, under its own place in the turn. */
  lemma FramesForStep(segments: seq<string>, j: nat, from: nat, frames: (nat, string) -> seq<Json>)
    requires j < |segments|
    ensures FramesFor(segments[..j + 1], from, frames) == FramesFor(segments[..j], from, frames) + frames(from + j, segments[j])
  {
    assert segments[..j + 1][..j] == segments[..j];
  }

  lemma SegmentsFramesAppend(xs: seq<string>, ys: seq<string>, from: nat, requestId: Option<Json>, env: Env)
    ensures SegmentsFrames(xs + ys, from, requestId, env)
      == SegmentsFrames(xs, from, requestId, env) + SegmentsFrames(ys, from + |xs|, requestId, env)
  {
    FramesForAppend(xs, ys, from, FramesOfSegment(requestId, env));
  }

  /** An audio frame is an 'audio' event that replies to no request. */
  lemma AudioFramesEvent(segment: string, k: nat, env: Env)
    ensures forall f :: f in AudioFrames(segment, k, env) ==> EventOf(f) == Some("audio") && Get(f, "inReplyTo").None?
  {
    var frames := AudioFrames(segment, k, env);
    if frames != [] {
      var f := frames[0];
      assert f.JObject? && f.fields["event"] == JString("audio") && "inReplyTo" !in f.fields;
    }
  }

  /** Every segment's frames open with its own 'full-text'; none of them is 'complete' or 'error'. */
  lemma SegmentsFramesEvents(segments: seq<string>, from: nat, requestId: Option<Json>, env: Env)
    ensures forall f :: f in SegmentsFrames(segments, from, requestId, env) ==> EventOf(f) == Some("full-text") || EventOf(f) == Some("audio")
    ensures |segments| <= |SegmentsFrames(segments, from, requestId, env)| <= 2 * |segments|
  {
    var frames := FramesOfSegment(requestId, env);
    forall k: nat, seg: string ensures OneSegmentsEvents(frames(k, seg)) {
      EnvelopeFields("full-text", JString(seg), requestId);
      AudioFramesEvent(seg, k, env);
    }
    FramesForEvents(segments, from, frames);
  }

  /** One or two frames, each a 'full-text' or an 'audio' event. */
  predicate OneSegmentsEvents(fs: seq<Json>) {
    && 1 <= |fs| <= 2
    && forall f :: f in fs ==> EventOf(f) == Some("full-text") || EventOf(f) == Some("audio")
  }

  lemma {:induction false} FramesForEvents(segments: seq<string>, from: nat, frames: (nat, string) -> seq<Json>)
    requires forall k: nat, seg: string :: OneSegmentsEvents(frames(k, seg))
    ensures forall f :: f in FramesFor(segments, from, frames) ==> EventOf(f) == Some("full-text") || EventOf(f) == Some("audio")
    ensures |segments| <= |FramesFor(segments, from, frames)| <= 2 * |segments|
    decreases |segments|
  {
    if segments != [] {
      var init := segments[..|segments| - 1];
      FramesForEvents(init, from, frames);
      assert OneSegmentsEvents(frames(from + |segments| - 1, segments[|segments| - 1]));
    }
  }

  /**
   * A turn without text (missing, empty or otherwise falsy) or without a
   * stream sends nothing and leaves the buffer as it was.
   */
  lemma NoTextOrNoStreamSendsNothing(message: Json, env: Env, b: string)
    requires !Truthy(Get(message, "text")) || env.stream.NoStream?
    ensures TurnFrames(message, env, b) == []
    ensures BufferAfter(message, env, b) == b
    ensures MemoryAdded(message, env) == []
  {
  }

  /** The frames of a turn that runs to its end, as one sequence of segments. */
  lemma CompletedTurnFrames(message: Json, env: Env, b: string)
    requires Completes(message, env)
    ensures var deltas := NonEmpty(env.stream.chunks);
      var segments := StreamSegments(b, deltas) + Flushed(Feed(b, deltas).1);
      TurnFrames(message, env, b) == [ThinkingFrame()] + SegmentsFrames(segments, 0, Get(message, "requestId"), env) + [CompleteFrame(message)]
  {
    var deltas := NonEmpty(env.stream.chunks);
    var requestId := Get(message, "requestId");
    var streamed := StreamSegments(b, deltas);
    var a := SegmentsFrames(streamed, 0, requestId, env);
    var c := SegmentsFrames(Flushed(Feed(b, deltas).1), |streamed|, requestId, env);
    assert TurnFrames(message, env, b) == [ThinkingFrame()] + (a + (c + [CompleteFrame(message)]));
    SegmentsFramesAppend(streamed, Flushed(Feed(b, deltas).1), 0, requestId, env);
    Assoc(a, c, [CompleteFrame(message)]);
    Assoc([ThinkingFrame()], a + c, [CompleteFrame(message)]);
  }

  /**
   * A turn that runs to its end sends 'thinking', then each segment's frames
   * in the order the segments were cut (those `addChunk` returned, then those
   * `flush` returned), then one 'complete' echoing the client message; the
   * segments hold every visible character of the non-empty chunks, in order,
   * when the buffer starts empty.
   */
  lemma CompletedTurnOrder(message: Json, env: Env)
    requires Completes(message, env)
    ensures var deltas := NonEmpty(env.stream.chunks);
      var fed := Feed("", deltas);
      var segments := Segments(fed.0) + Flushed(fed.1);
      var requestId := Get(message, "requestId");
      && TurnFrames(message, env, "") == [ThinkingFrame()] + SegmentsFrames(segments, 0, requestId, env) + [CompleteFrame(message)]
      && NonSpace(Concat(segments)) == NonSpace(Concat(env.stream.chunks))
      && (forall seg :: seg in segments ==> !IsBlank(seg))
  {
    var deltas := NonEmpty(env.stream.chunks);
    var fed := Feed("", deltas);
    CompletedTurnFrames(message, env, "");
    StreamReconstructs(deltas);
    ConcatNonEmpty(env.stream.chunks);
    SegmentsKeepText(fed.0);
  }

  /** A completed turn ends with 'complete' and sends no other 'complete' and no 'error'. */
  lemma CompletedTurnEndsOnce(message: Json, env: Env, b: string)
    requires Completes(message, env)
    ensures var frames := TurnFrames(message, env, b);
      && |frames| >= 2
      && EventOf(frames[0]) == Some("full-text")
      && EventOf(frames[|frames| - 1]) == Some("complete")
      && (forall k :: 0 <= k < |frames| - 1 ==> EventOf(frames[k]) != Some("complete") && EventOf(frames[k]) != Some("error"))
  {
    var deltas := NonEmpty(env.stream.chunks);
    var fed := Feed(b, deltas);
    var requestId := Get(message, "requestId");
    var mid := SegmentsFrames(StreamSegments(b, deltas) + Flushed(fed.1), 0, requestId, env);
    CompletedTurnFrames(message, env, b);
    SegmentsFramesEvents(StreamSegments(b, deltas) + Flushed(fed.1), 0, requestId, env);
    var frames := TurnFrames(message, env, b);
    assert frames == [ThinkingFrame()] + mid + [CompleteFrame(message)];
    EnvelopeFields("full-text", JString("thinking"), None);
    EnvelopeFields("complete", JObject(map["message" := message]), None);
    forall k | 0 <= k < |frames| - 1
      ensures EventOf(frames[k]) != Some("complete") && EventOf(frames[k]) != Some("error")
    {
      if k > 0 {
        assert frames[k] == mid[k - 1];
        assert frames[k] in mid;
      }
    }
  }

  /**
   * A turn that throws sends one 'error' frame as its last frame, replying
   * to the request id and naming 'text-input', sends no 'complete', and
   * leaves the buffer empty and memory untouched.
   */
  lemma ThrownTurnEndsInError(message: Json, env: Env, b: string)
    requires Throws(message, env)
    ensures var frames := TurnFrames(message, env, b);
      && |frames| >= 1
      && TurnErrorReply(frames[|frames| - 1], Get(message, "requestId"))
      && (forall k :: 0 <= k < |frames| ==> EventOf(frames[k]) != Some("complete"))
    ensures BufferAfter(message, env, b) == ""
    ensures MemoryAdded(message, env) == []
  {
    var body, m := ThrownFrames(message, env, b);
    EndsWithTurnError(body, m, Get(message, "requestId"));
  }

  /** An 'error' frame answering `requestId` and naming 'text-input' as the failed event. */
  predicate TurnErrorReply(f: Json, requestId: Option<Json>) {
    && EventOf(f) == Some("error")
    && Get(f, "inReplyTo") == requestId
    && Get(f, "payload").Some?
    && Get(Get(f, "payload").value, "originalEvent") == Some(JString("text-input"))
  }

  /** A turn that throws sends 'full-text' and 'audio' frames, then the error frame for `m`. */
  lemma ThrownFrames(message: Json, env: Env, b: string) returns (body: seq<Json>, m: string)
    requires Throws(message, env)
    ensures TurnFrames(message, env, b) == body + [TurnErrorFrame(m, Get(message, "requestId"))]
    ensures forall f :: f in body ==> EventOf(f) == Some("full-text") || EventOf(f) == Some("audio")
  {
    var requestId := Get(message, "requestId");
    body := [];
    match env.stream {
      case Rejects(r) =>
        m := r;
      case Stream(chunks, failure) =>
        EnvelopeFields("full-text", JString("thinking"), None);
        body := [ThinkingFrame()];
        if env.markAsRead.Some? {
          m := env.markAsRead.value;
        } else {
          m := failure.value;
          var segments := StreamSegments(b, NonEmpty(chunks));
          SegmentsFramesEvents(segments, 0, requestId, env);
          body := body + SegmentsFrames(segments, 0, requestId, env);
        }
    }
  }

  /** Frames that are 'full-text' and 'audio' events followed by the turn's 'error' frame. */
  lemma EndsWithTurnError(body: seq<Json>, m: string, requestId: Option<Json>)
    requires forall f :: f in body ==> EventOf(f) == Some("full-text") || EventOf(f) == Some("audio")
    ensures var frames := body + [TurnErrorFrame(m, requestId)];
      && TurnErrorReply(frames[|frames| - 1], requestId)
      && (forall k :: 0 <= k < |frames| ==> EventOf(frames[k]) != Some("complete"))
  {
    var frames := body + [TurnErrorFrame(m, requestId)];
    EnvelopeFields("error", TurnErrorPayload(m), requestId);
    forall k | 0 <= k < |frames| ensures EventOf(frames[k]) != Some("complete") {
      if k < |body| {
        assert frames[k] in body;
      }
    }
  }

  /** A segment of at most two characters is only echoed as 'full-text'. */
  lemma ShortSegmentOnlyEchoed(segment: string, k: nat, requestId: Option<Json>, env: Env)
    requires |segment| <= 2
    ensures SegmentFrames(segment, k, requestId, env) == [Envelope("full-text", JString(segment), requestId)]
  {
  }

  /**
   * The audio rules for a longer segment that cleans: a segment with visible
   * cleaned text gets an 'audio' frame exactly when synthesis succeeds, and
   * it carries the audio, the raw segment and the removed tags; a segment
   * with no visible cleaned text gets a silent 'audio' frame exactly when
   * tags were removed. Cleaning and synthesis are those the turn's `k`-th
   * segment gets.
   */
  lemma SegmentAudioRules(segment: string, k: nat, requestId: Option<Json>, env: Env)
    requires |segment| > 2 && VocabFor(env, k).Some?
    ensures var (cleanedText, removedValues) := Clean(segment, VocabFor(env, k).value);
      var frames := SegmentFrames(segment, k, requestId, env);
      && (!IsBlank(cleanedText) ==> (
        && (|frames| == 2 <==> SpeechFor(env, k, cleanedText).Some?)
        && (|frames| == 2 ==> frames[1] == Envelope("audio", SpokenPayload(SpeechFor(env, k, cleanedText).value, segment, removedValues), None))))
      && (IsBlank(cleanedText) ==> (
        && (|frames| == 2 <==> |removedValues| > 0)
        && (|frames| == 2 ==> Get(Get(frames[1], "payload").value, "audio") == Some(JNull))))
  {
    var (cleanedText, removedValues) := Clean(segment, VocabFor(env, k).value);
    var ft := Envelope("full-text", JString(segment), requestId);
    var audio := CleanedAudio(cleanedText, removedValues, segment, k, env);
    assert SegmentFrames(segment, k, requestId, env) == [ft] + audio;
    CleanedAudioRules(cleanedText, removedValues, segment, k, env);
  }

  /** The audio rule once the segment is cleaned: spoken when synthesis succeeds on visible text, silent when only tags were there. */
  lemma CleanedAudioRules(cleanedText: string, removedValues: seq<RemovedValue>, segment: string, k: nat, env: Env)
    ensures var audio := CleanedAudio(cleanedText, removedValues, segment, k, env);
      && |audio| <= 1
      && (!IsBlank(cleanedText) ==> (
        && (|audio| == 1 <==> SpeechFor(env, k, cleanedText).Some?)
        && (|audio| == 1 ==> audio[0] == Envelope("audio", SpokenPayload(SpeechFor(env, k, cleanedText).value, segment, removedValues), None))))
      && (IsBlank(cleanedText) ==> (
        && (|audio| == 1 <==> |removedValues| > 0)
        && (|audio| == 1 ==> Get(Get(audio[0], "payload").value, "audio") == Some(JNull))))
  {
    if IsBlank(cleanedText) && |removedValues| > 0 {
      EnvelopeFields("audio", SilentPayload(segment, removedValues), None);
    }
  }

  /** An unparseable (or falsy) frame gets exactly one 'error' with the invalid-format message. */
  lemma InvalidFrameRejected(parsed: Option<Json>, env: Env, b: string)
    requires !Truthy(parsed)
    ensures var frames := EventFrames(parsed, env, b);
      && |frames| == 1
      && EventOf(frames[0]) == Some("error")
      && Get(Get(frames[0], "payload").value, "message") == Some(JString(InvalidFormatMessage))
  {
    EnvelopeFields("error", JObject(map["message" := JString(InvalidFormatMessage)]), None);
  }

  /** Dispatch on the message type: a turn, the (empty) background list, or one 'error' naming the type. */
  lemma Dispatch(parsed: Option<Json>, env: Env, b: string)
    requires Truthy(parsed)
    ensures var eventType := Get(parsed.value, "type");
      var frames := EventFrames(parsed, env, b);
      && (eventType == Some(JString("text-input")) ==> frames == TurnFrames(parsed.value, env, b))
      && (eventType == Some(JString("fetch-backgrounds")) ==>
            frames == [BackgroundFilesFrame()] && Get(Get(frames[0], "payload").value, "files") == Some(JArray([])))
      && (eventType != Some(JString("text-input")) && eventType != Some(JString("fetch-backgrounds")) ==> (
            && |frames| == 1 && EventOf(frames[0]) == Some("error")
            && Get(Get(frames[0], "payload").value, "message") == Some(JString(UnknownEventPrefix + Display(eventType)))))
  {
    var eventType := Get(parsed.value, "type");
    EnvelopeFields("background-files", JObject(map["files" := JArray([])]), None);
    EnvelopeFields("error", JObject(map["message" := JString(UnknownEventPrefix + Display(eventType))]), None);
  }

  // ---------------------------------------------------------------------------
  // The handler, step by step
  // ---------------------------------------------------------------------------

  /** The conversation memory: every entry added so far. */
  class Memory {
    var entries: seq<ChatEntry>

    constructor()
      ensures entries == []
    {
      entries := [];
    }

    method AddUserMessage(content: Json)
      modifies this
      ensures entries == old(entries) + [UserEntry(content)]
    {
      entries := entries + [UserEntry(content)];
    }

    method AddAiMessage(content: string)
      modifies this
      ensures entries == old(entries) + [AiEntry(content)]
    {
      entries := entries + [AiEntry(content)];
    }
  }

  /**
   * `processCompleteText` on the turn's `k`-th segment: never throws; sends
   * what `SegmentFrames` says.
   */
  method ProcessCompleteText(completeText: string, k: nat, ws: Socket, requestId: Option<Json>, env: Env)
    modifies ws
    ensures ws.open == old(ws.open)
    ensures ws.sent == old(ws.sent) + Delivered(ws.open, SegmentFrames(completeText, k, requestId, env))
  {
    SendMessage(ws, "full-text", JString(completeText), requestId);
    if |completeText| <= 2 {
      return;
    }
    var vocab := VocabFor(env, k);
    if vocab.None? {
      return;
    }
    var cleanedText, removedValues := CleanTextAndGetRemovedValues(completeText, vocab.value);
    ghost var sent := ws.sent;
    SendAudio(cleanedText, removedValues, completeText, k, ws, env);
    assert AudioFrames(completeText, k, env) == CleanedAudio(cleanedText, removedValues, completeText, k, env);
    DeliveredAppend(ws.open, [Envelope("full-text", JString(completeText), requestId)], AudioFrames(completeText, k, env));
  }

  /** The audio step of `processCompleteText` on the turn's `k`-th segment, once it is cleaned. */
  method SendAudio(cleanedText: string, removedValues: seq<RemovedValue>, segment: string, k: nat, ws: Socket, env: Env)
    modifies ws
    ensures ws.open == old(ws.open)
    ensures ws.sent == old(ws.sent) + Delivered(ws.open, CleanedAudio(cleanedText, removedValues, segment, k, env))
  {
    TrimFacts(cleanedText);
    if Trim(cleanedText) != "" {
      match SpeechFor(env, k, cleanedText)
      case None =>
      case Some(audio) =>
        SendMessage(ws, "audio", SpokenPayload(audio, segment, removedValues), None);
    } else if |removedValues| > 0 {
      SendMessage(ws, "audio", SilentPayload(segment, removedValues), None);
    }
  }

  /**
   * The `for … of` loop over the segments one call returned, the first of
   * them being the turn's `from`-th segment.
   */
  method ProcessCompleteTexts(completeTexts: seq<string>, from: nat, ws: Socket, requestId: Option<Json>, env: Env)
    modifies ws
    ensures ws.open == old(ws.open)
    ensures ws.sent == old(ws.sent) + Delivered(ws.open, SegmentsFrames(completeTexts, from, requestId, env))
  {
    ghost var frames := FramesOfSegment(requestId, env);
    var j := 0;
    while j < |completeTexts|
      invariant 0 <= j <= |completeTexts|
      invariant ws.open == old(ws.open)
      invariant ws.sent == old(ws.sent) + Delivered(ws.open, FramesFor(completeTexts[..j], from, frames))
    {
      ProcessNth(completeTexts, j, from, ws, requestId, env);
      DeliveredFramesStep(ws.open, old(ws.sent), completeTexts, j, from, frames);
      j := j + 1;
    }
    assert completeTexts[..j] == completeTexts;
  }

  /** One pass of that loop: `processCompleteText` on its `j`-th segment, the turn's `from + j`-th. */
  method ProcessNth(completeTexts: seq<string>, j: nat, from: nat, ws: Socket, requestId: Option<Json>, env: Env)
    requires j < |completeTexts|
    modifies ws
    ensures ws.open == old(ws.open)
    ensures ws.sent == old(ws.sent) + Delivered(ws.open, FramesOfSegment(requestId, env)(from + j, completeTexts[j]))
  {
    ProcessCompleteText(completeTexts[j], from + j, ws, requestId, env);
    FramesOfSegmentAt(requestId, env, from + j, completeTexts[j]);
  }

  /** The `catch` block of `textInput`: clear the buffer and report the error to the requester. */
  method ReportTurnError(buffer: ChunkBuffer, ws: Socket, message: string, requestId: Option<Json>)
    modifies buffer, ws
    ensures buffer.buffer == ""
    ensures ws.open == old(ws.open)
    ensures ws.sent == old(ws.sent) + Delivered(ws.open, [TurnErrorFrame(message, requestId)])
  {
    buffer.Clear();
    SendMessage(ws, "error", TurnErrorPayload(message), requestId);
  }

  lemma NonEmptyStep(chunks: seq<string>, i: nat)
    requires i < |chunks|
    ensures NonEmpty(chunks[..i + 1]) == NonEmpty(chunks[..i]) + (if chunks[i] == "" then [] else [chunks[i]])
  {
    assert chunks[..i + 1][..i] == chunks[..i];
  }

  /** One more delta: the buffer's new contents and the segment list it extends. */
  lemma FeedStep(b: string, deltas: seq<string>, c: string)
    ensures var s := Feed(b, deltas).1 + c;
      var k := SplitPoint(s);
      && Feed(b, deltas + [c]).1 == s[k..]
      && StreamSegments(b, deltas + [c]) == StreamSegments(b, deltas) + Emitted(s[..k])
  {
    var prev := Feed(b, deltas);
    var s := prev.1 + c;
    FeedSnoc(b, deltas, c);
    SegmentsSnoc(prev.0, s[..SplitPoint(s)]);
  }

  lemma DeliveredSegmentsAppend(open: bool, base: seq<Json>, xs: seq<string>, ys: seq<string>, requestId: Option<Json>, env: Env)
    ensures base + Delivered(open, SegmentsFrames(xs, 0, requestId, env)) + Delivered(open, SegmentsFrames(ys, |xs|, requestId, env))
      == base + Delivered(open, SegmentsFrames(xs + ys, 0, requestId, env))
  {
    DeliveredFramesAppend(open, base, xs, ys, 0, FramesOfSegment(requestId, env));
  }

  lemma DeliveredFramesAppend(open: bool, base: seq<Json>, xs: seq<string>, ys: seq<string>, from: nat, frames: (nat, string) -> seq<Json>)
    ensures base + Delivered(open, FramesFor(xs, from, frames)) + Delivered(open, FramesFor(ys, from + |xs|, frames))
      == base + Delivered(open, FramesFor(xs + ys, from, frames))
  {
    var a, c := FramesFor(xs, from, frames), FramesFor(ys, from + |xs|, frames);
    FramesForAppend(xs, ys, from, frames);
    DeliveredAppend(open, a, c);
    Assoc(base, Delivered(open, a), Delivered(open, c));
  }

  /** Delivering one more segment's frames extends what the segments before it delivered. */
  lemma DeliveredFramesStep(open: bool, base: seq<Json>, segments: seq<string>, j: nat, from: nat, frames: (nat, string) -> seq<Json>)
    requires j < |segments|
    ensures base + Delivered(open, FramesFor(segments[..j], from, frames)) + Delivered(open, frames(from + j, segments[j]))
      == base + Delivered(open, FramesFor(segments[..j + 1], from, frames))
  {
    FramesForStep(segments, j, from, frames);
    DeliveredAppend(open, FramesFor(segments[..j], from, frames), frames(from + j, segments[j]));
    Assoc(base, Delivered(open, FramesFor(segments[..j], from, frames)), Delivered(open, frames(from + j, segments[j])));
  }

  /**
   * The chunk loop of `textInput`: skips empty chunks, accumulates the answer,
   * feeds the buffer and handles each segment it returns. `handled` counts
   * the segments, so that each one is known by its place in the turn.
   */
  method PumpChunks(chunks: seq<string>, buffer: ChunkBuffer, ws: Socket, requestId: Option<Json>, env: Env)
    returns (fullText: string, handled: nat)
    modifies buffer, ws
    ensures fullText == Concat(NonEmpty(chunks))
    ensures handled == |StreamSegments(old(buffer.buffer), NonEmpty(chunks))|
    ensures buffer.buffer == Feed(old(buffer.buffer), NonEmpty(chunks)).1
    ensures ws.open == old(ws.open)
    ensures ws.sent == old(ws.sent) + Delivered(ws.open, SegmentsFrames(StreamSegments(old(buffer.buffer), NonEmpty(chunks)), 0, requestId, env))
  {
    ghost var b := buffer.buffer;
    ghost var sent0 := ws.sent;
    fullText, handled := "", 0;
    var i := 0;
    while i < |chunks|
      invariant 0 <= i <= |chunks|
      invariant fullText == Concat(NonEmpty(chunks[..i]))
      invariant handled == |StreamSegments(b, NonEmpty(chunks[..i]))|
      invariant buffer.buffer == Feed(b, NonEmpty(chunks[..i])).1
      invariant ws.open == old(ws.open)
      invariant ws.sent == sent0 + Delivered(ws.open, SegmentsFrames(StreamSegments(b, NonEmpty(chunks[..i])), 0, requestId, env))
    {
      var chunk := chunks[i];
      ghost var deltas := NonEmpty(chunks[..i]);
      NonEmptyStep(chunks, i);
      if chunk == "" {
        assert NonEmpty(chunks[..i + 1]) == deltas;
      } else {
        fullText := fullText + chunk;
        ConcatSnoc(deltas, chunk);
        var completeTexts := buffer.AddChunk(chunk);
        FeedStep(b, deltas, chunk);
        ProcessCompleteTexts(completeTexts, handled, ws, requestId, env);
        DeliveredSegmentsAppend(ws.open, sent0, StreamSegments(b, deltas), completeTexts, requestId, env);
        handled := handled + |completeTexts|;
      }
      i := i + 1;
    }
    assert chunks[..i] == chunks;
  }

  /** What a turn that reaches the stream sends after 'thinking'. */
  lemma TurnFramesTail(message: Json, env: Env, b: string)
    requires Truthy(Get(message, "text")) && env.stream.Stream? && env.markAsRead.None?
    ensures var requestId := Get(message, "requestId");
      var deltas := NonEmpty(env.stream.chunks);
      var frames := TurnFrames(message, env, b);
      var segments := StreamSegments(b, deltas);
      && |frames| >= 1
      && frames[1..] == SegmentsFrames(segments, 0, requestId, env)
        + if env.stream.failure.Some? then [TurnErrorFrame(env.stream.failure.value, requestId)]
          else SegmentsFrames(Flushed(Feed(b, deltas).1), |segments|, requestId, env) + [CompleteFrame(message)]
  {
  }

  lemma DeliveredSnoc(open: bool, base: seq<Json>, xs: seq<Json>, ys: seq<Json>)
    ensures base + Delivered(open, xs) + Delivered(open, ys) == base + Delivered(open, xs + ys)
  {
    DeliveredAppend(open, xs, ys);
    Assoc(base, Delivered(open, xs), Delivered(open, ys));
  }

  /**
   * The `try` block of `textInput` (with its `catch`) on the connection's
   * buffer: sends what `TurnFrames` says, leaves the buffer as
   * `BufferAfter` says and records the exchange in memory only when the
   * turn completes.
   */
  method RunTurn(message: Json, buffer: ChunkBuffer, ws: Socket, memory: Memory, env: Env)
    modifies buffer, ws, memory
    ensures ws.open == old(ws.open)
    ensures ws.sent == old(ws.sent) + Delivered(ws.open, TurnFrames(message, env, old(buffer.buffer)))
    ensures buffer.buffer == BufferAfter(message, env, old(buffer.buffer))
    ensures memory.entries == old(memory.entries) + MemoryAdded(message, env)
  {
    ghost var b := buffer.buffer;
    var requestId := Get(message, "requestId");
    var text := Get(message, "text");
    if !Truthy(text) {
      return;
    }
    match env.stream
    case NoStream =>
      return;
    case Rejects(m) =>
      ReportTurnError(buffer, ws, m, requestId);
    case Stream(chunks, failure) =>
      SendMessage(ws, "full-text", JString("thinking"), None);
      if env.markAsRead.Some? {
        ReportTurnError(buffer, ws, env.markAsRead.value, requestId);
        DeliveredSnoc(ws.open, old(ws.sent), [ThinkingFrame()], [TurnErrorFrame(env.markAsRead.value, requestId)]);
        return;
      }
      StreamTurn(message, chunks, failure, buffer, ws, memory, env);
      DeliveredSnoc(ws.open, old(ws.sent), [ThinkingFrame()], TurnFrames(message, env, b)[1..]);
      assert TurnFrames(message, env, b) == [ThinkingFrame()] + TurnFrames(message, env, b)[1..];
  }

  /**
   * The part of the turn after 'thinking' and `markAsRead`: the chunk loop,
   * then either the `catch` block (when the stream throws) or `flush`,
   * memory and 'complete'.
   */
  method StreamTurn(message: Json, chunks: seq<string>, failure: Option<string>,
                    buffer: ChunkBuffer, ws: Socket, memory: Memory, env: Env)
    requires Truthy(Get(message, "text")) && env.stream == Stream(chunks, failure) && env.markAsRead.None?
    modifies buffer, ws, memory
    ensures ws.open == old(ws.open)
    ensures var frames := TurnFrames(message, env, old(buffer.buffer));
      |frames| >= 1 && ws.sent == old(ws.sent) + Delivered(ws.open, frames[1..])
    ensures buffer.buffer == BufferAfter(message, env, old(buffer.buffer))
    ensures memory.entries == old(memory.entries) + MemoryAdded(message, env)
  {
    ghost var b := buffer.buffer;
    var requestId := Get(message, "requestId");
    var text := Get(message, "text");
    var fullText, handled := PumpChunks(chunks, buffer, ws, requestId, env);
    ghost var deltas := NonEmpty(chunks);
    ghost var pumped := SegmentsFrames(StreamSegments(b, deltas), 0, requestId, env);
    TurnFramesTail(message, env, b);
    if failure.Some? {
      ReportTurnError(buffer, ws, failure.value, requestId);
      DeliveredSnoc(ws.open, old(ws.sent), pumped, [TurnErrorFrame(failure.value, requestId)]);
      return;
    }
    FinishTurn(message, text.value, fullText, buffer, ws, memory, handled, requestId, env);
    ghost var flushed := SegmentsFrames(Flushed(Feed(b, deltas).1), handled, requestId, env);
    DeliveredSnoc(ws.open, old(ws.sent), pumped, flushed + [CompleteFrame(message)]);
    ConcatNonEmpty(chunks);
  }

  /**
   * The end of a turn whose stream ran out after `handled` segments: flush
   * what is left, record the exchange, send 'complete'.
   */
  method FinishTurn(message: Json, text: Json, fullText: string, buffer: ChunkBuffer, ws: Socket, memory: Memory,
                    handled: nat, requestId: Option<Json>, env: Env)
    modifies buffer, ws, memory
    ensures buffer.buffer == ""
    ensures ws.open == old(ws.open)
    ensures ws.sent == old(ws.sent) + Delivered(ws.open, SegmentsFrames(Flushed(old(buffer.buffer)), handled, requestId, env) + [CompleteFrame(message)])
    ensures memory.entries == old(memory.entries) + [UserEntry(text), AiEntry(fullText)]
  {
    var finalTexts := buffer.Flush();
    ProcessCompleteTexts(finalTexts, handled, ws, requestId, env);
    memory.AddUserMessage(text);
    memory.AddAiMessage(fullText);
    SendMessage(ws, "complete", JObject(map["message" := message]), None);
    DeliveredSnoc(ws.open, old(ws.sent), SegmentsFrames(finalTexts, handled, requestId, env), [CompleteFrame(message)]);
  }

  /**
   * `textInput`: fetches (or creates) the connection's buffer before the
   * turn, then runs it. No other connection's buffer is replaced.
   */
  method TextInput(message: Json, ws: Socket, registry: BufferRegistry, memory: Memory, env: Env)
    modifies ws, memory, registry, if ws in registry.buffers then {registry.buffers[ws]} else {}
    ensures ws.open == old(ws.open)
    ensures var b := old(if ws in registry.buffers then registry.buffers[ws].buffer else "");
      && ws.sent == old(ws.sent) + Delivered(ws.open, TurnFrames(message, env, b))
      && ws in registry.buffers && registry.buffers[ws].buffer == BufferAfter(message, env, b)
    ensures registry.buffers.Keys == old(registry.buffers.Keys) + {ws}
    ensures forall k :: k in old(registry.buffers) ==> registry.buffers[k] == old(registry.buffers[k])
    ensures memory.entries == old(memory.entries) + MemoryAdded(message, env)
  {
    var buffer := registry.GetOrCreateBuffer(ws);
    RunTurn(message, buffer, ws, memory, env);
  }

  /** `fetchBackgrounds`: one 'background-files' frame with an empty list. */
  method FetchBackgrounds(ws: Socket)
    modifies ws
    ensures ws.open == old(ws.open)
    ensures ws.sent == old(ws.sent) + Delivered(ws.open, [BackgroundFilesFrame()])
  {
    SendMessage(ws, "background-files", JObject(map["files" := JArray([])]), None);
  }

  /** The incoming frame starts a turn. */
  predicate IsTurn(parsed: Option<Json>) {
    Truthy(parsed) && Get(parsed.value, "type") == Some(JString("text-input"))
  }

  /**
   * `handleEvents`: parses the frame and dispatches on its `type`. Sends
   * what `EventFrames` says; only a turn touches the registry, the buffer
   * and memory.
   */
  method HandleEvents(frame: string, parse: string -> Option<Json>, ws: Socket, registry: BufferRegistry, memory: Memory, env: Env)
    modifies ws, memory, registry, if ws in registry.buffers then {registry.buffers[ws]} else {}
    ensures ws.open == old(ws.open)
    ensures var b := old(if ws in registry.buffers then registry.buffers[ws].buffer else "");
      ws.sent == old(ws.sent) + Delivered(ws.open, EventFrames(parse(frame), env, b))
    ensures IsTurn(parse(frame)) ==>
      var b := old(if ws in registry.buffers then registry.buffers[ws].buffer else "");
      && ws in registry.buffers && registry.buffers[ws].buffer == BufferAfter(parse(frame).value, env, b)
      && registry.buffers.Keys == old(registry.buffers.Keys) + {ws}
      && (forall k :: k in old(registry.buffers) ==> registry.buffers[k] == old(registry.buffers[k]))
      && memory.entries == old(memory.entries) + MemoryAdded(parse(frame).value, env)
    ensures !IsTurn(parse(frame)) ==>
      && registry.buffers == old(registry.buffers)
      && (ws in registry.buffers ==> registry.buffers[ws].buffer == old(registry.buffers[ws].buffer))
      && memory.entries == old(memory.entries)
  {
    var clientMessage := ParseClientMessage(frame, parse);
    if !Truthy(clientMessage) {
      SendMessage(ws, "error", JObject(map["message" := JString(InvalidFormatMessage)]), None);
      return;
    }
    var eventType := Get(clientMessage.value, "type");
    if eventType == Some(JString("text-input")) {
      TextInput(clientMessage.value, ws, registry, memory, env);
    } else if eventType == Some(JString("fetch-backgrounds")) {
      FetchBackgrounds(ws);
    } else {
      SendMessage(ws, "error", JObject(map["message" := JString(UnknownEventPrefix + Display(eventType))]), None);
    }
  }

  /** `handleConnectionClose`: forgets the connection's buffer and nothing else. */
  method HandleConnectionClose(ws: Socket, registry: BufferRegistry)
    modifies registry
    ensures registry.buffers == old(registry.buffers) - {ws}
  {
    registry.DeleteBufferForConnection(ws);
  }
}
