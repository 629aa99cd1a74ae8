/** The voice-session engine of hooks/useAudioSession.ts as a pure state
    machine. The hook's refs and React state become one `Session` value; each
    callback (`onopen`, `onmessage`, `onerror`/`onclose`, a buffer source's
    `onended`) and each exported action (`startSession`, `stopSession`,
    `clearTranscription`) becomes a function from the old value to the new.
    Time is counted in ticks of the 24 kHz output clock, so a chunk of `n`
    frames lasts `n` ticks; the clock reading is an input of each message. */
module AudioSession {
  import opened Wrappers
  import opened Collections
  import opened Base64
  import opened Pcm

  // ---------------------------------------------------------------------------
  // State

  /** One scheduled buffer source node: its identity (the number of nodes
      created before it), its start tick and its length in frames. Two nodes
      with the same start and length are still different nodes. */
  datatype Playback = Playback(id: nat, start: nat, frames: nat)
  {
    function End(): nat { start + frames }
  }

  /** The running per-turn text of each speaker (`currentTurnTranscriptionRef`). */
  datatype Turn = Turn(user: string, model: string)

  const EmptyTurn := Turn("", "")

  /** `isActive`, whether a session handle is held (`sessionPromiseRef`),
      the scheduled sources (`sourcesRef`), `nextStartTimeRef`, the turn
      accumulators, the published `transcription` list, and the number of
      buffer-source nodes created so far, which names the next one. */
  datatype Session = Session(
    active: bool,
    connected: bool,
    sources: set<Playback>,
    nextStart: nat,
    turn: Turn,
    transcript: seq<string>,
    created: nat)

  const Initial := Session(false, false, {}, 0, EmptyTurn, [], 0)

  // ---------------------------------------------------------------------------
  // Inbound protocol

  datatype FunctionCall<A> = FunctionCall(id: string, name: string, args: A)

  /** The parts of a server message the handler reads; absent parts are
      `None`/`false`. `audio` is the inline data of the first part of the
      model turn. */
  datatype Message<A> = Message(
    interrupted: bool,
    audio: Option<string>,
    inputTranscription: Option<string>,
    outputTranscription: Option<string>,
    turnComplete: bool,
    toolCall: Option<seq<FunctionCall<A>>>)

  // ---------------------------------------------------------------------------
  // Transcript lines

  const UserTag: string := "[User]"
  const ModelTag: string := "[DialMe]"

  predicate IsUserLine(t: string) { UserTag <= t }
  predicate IsModelLine(t: string) { ModelTag <= t }

  /** `[User]: ${text}` and `[DialMe]: ${text}`. */
  function UserLine(text: string): (t: string)
    ensures IsUserLine(t) && !IsModelLine(t)
  {
    assert ("[User]: " + text)[..6] == UserTag;
    TagsExclusive("[User]: " + text);
    "[User]: " + text
  }

  function ModelLine(text: string): (t: string)
    ensures IsModelLine(t) && !IsUserLine(t)
  {
    assert ("[DialMe]: " + text)[..8] == ModelTag;
    TagsExclusive("[DialMe]: " + text);
    "[DialMe]: " + text
  }

  lemma TagsExclusive(t: string)
    ensures !(IsUserLine(t) && IsModelLine(t))
  {
    if IsUserLine(t) {
      assert t[1] == UserTag[1] == 'U';
      assert ModelTag[1] == 'D';
    }
  }

  /** The shape every published list keeps: only speaker lines, at most one
      per speaker. */
  predicate TranscriptOk(ts: seq<string>)
  {
    && |ts| <= 2
    && (forall i :: 0 <= i < |ts| ==> IsUserLine(ts[i]) || IsModelLine(ts[i]))
    && (|ts| == 2 ==> IsUserLine(ts[0]) != IsUserLine(ts[1]))
  }

  function NotUser(t: string): bool { !IsUserLine(t) }
  function NotModel(t: string): bool { !IsModelLine(t) }
  function NotSpeaker(t: string): bool { !IsUserLine(t) && !IsModelLine(t) }
  predicate IsSpeaker(t: string) { IsUserLine(t) || IsModelLine(t) }

  /** A user-text delta: append to the user accumulator; the list becomes
      its non-`[User]` lines, in order, followed by the one updated user line. */
  function UserDelta(s: Session, text: string): (r: Session)
    ensures r.turn == Turn(s.turn.user + text, s.turn.model)
    ensures |r.transcript| >= 1 && r.transcript[|r.transcript| - 1] == UserLine(s.turn.user + text)
    ensures forall i :: 0 <= i < |r.transcript| - 1 ==> !IsUserLine(r.transcript[i]) && r.transcript[i] in s.transcript
    ensures forall t :: t in s.transcript && !IsUserLine(t) ==> t in r.transcript
    ensures Filter(r.transcript, NotUser) == Filter(s.transcript, NotUser)
    ensures Filter(r.transcript, IsUserLine) == [UserLine(s.turn.user + text)]
    ensures r.active == s.active && r.connected == s.connected
    ensures r.sources == s.sources && r.nextStart == s.nextStart && r.created == s.created
  {
    var user := s.turn.user + text;
    s.(turn := s.turn.(user := user),
       transcript := ReplaceTagged(s.transcript, NotUser, IsUserLine, [UserLine(user)]))
  }

  /** A model-text delta, the same with the `[DialMe]` tag. */
  function ModelDelta(s: Session, text: string): (r: Session)
    ensures r.turn == Turn(s.turn.user, s.turn.model + text)
    ensures |r.transcript| >= 1 && r.transcript[|r.transcript| - 1] == ModelLine(s.turn.model + text)
    ensures forall i :: 0 <= i < |r.transcript| - 1 ==> !IsModelLine(r.transcript[i]) && r.transcript[i] in s.transcript
    ensures forall t :: t in s.transcript && !IsModelLine(t) ==> t in r.transcript
    ensures Filter(r.transcript, NotModel) == Filter(s.transcript, NotModel)
    ensures Filter(r.transcript, IsModelLine) == [ModelLine(s.turn.model + text)]
    ensures r.active == s.active && r.connected == s.connected
    ensures r.sources == s.sources && r.nextStart == s.nextStart && r.created == s.created
  {
    var model := s.turn.model + text;
    s.(turn := s.turn.(model := model),
       transcript := ReplaceTagged(s.transcript, NotModel, IsModelLine, [ModelLine(model)]))
  }

  /** The final lines of a turn: the user's then the model's, each only when
      its text is non-empty. */
  function Finals(user: string, model: string): (ts: seq<string>)
    ensures forall i :: 0 <= i < |ts| ==> IsSpeaker(ts[i])
  {
    (if user != "" then [UserLine(user)] else []) + (if model != "" then [ModelLine(model)] else [])
  }

  /** After the speaker lines are replaced, a speaker line is present
      exactly when it is one of the new ones. */
  lemma SpeakerLineIn(ts: seq<string>, fin: seq<string>, x: string)
    requires forall i :: 0 <= i < |fin| ==> IsSpeaker(fin[i])
    requires IsSpeaker(x)
    ensures x in ReplaceTagged(ts, NotSpeaker, IsSpeaker, fin) <==> x in fin
  {
    var f := Filter(ts, NotSpeaker);
    var r := ReplaceTagged(ts, NotSpeaker, IsSpeaker, fin);
    if x in r {
      var i :| 0 <= i < |r| && r[i] == x;
      if i >= |f| {
        assert fin[i - |f|] == x;
      }
    }
  }

  /** After turn completion each speaker's final line is present exactly
      when that speaker said something. */
  lemma FinalLinesIn(ts: seq<string>, user: string, model: string)
    ensures var r := ReplaceTagged(ts, NotSpeaker, IsSpeaker, Finals(user, model));
      && (UserLine(user) in r <==> user != "")
      && (ModelLine(model) in r <==> model != "")
  {
    var fin := Finals(user, model);
    SpeakerLineIn(ts, fin, UserLine(user));
    SpeakerLineIn(ts, fin, ModelLine(model));
    assert UserLine(user) in fin <==> user != "";
    assert ModelLine(model) in fin <==> model != "";
  }

  /** Turn complete: when either accumulator holds text, every speaker line
      goes and the final lines are appended after the other lines, which keep
      their order; both accumulators are emptied in every case. */
  function TurnComplete(s: Session): (r: Session)
    ensures r.turn == EmptyTurn
    ensures s.turn.user == "" && s.turn.model == "" ==> r.transcript == s.transcript
    ensures s.turn.user != "" || s.turn.model != "" ==>
      (UserLine(s.turn.user) in r.transcript <==> s.turn.user != "") &&
      (ModelLine(s.turn.model) in r.transcript <==> s.turn.model != "")
    ensures s.turn.user != "" || s.turn.model != "" ==>
      var fin := Finals(s.turn.user, s.turn.model);
      && Filter(r.transcript, NotSpeaker) == Filter(s.transcript, NotSpeaker)
      && Filter(r.transcript, IsSpeaker) == fin
      && |r.transcript| >= |fin| && r.transcript[|r.transcript| - |fin|..] == fin
    ensures r.active == s.active && r.connected == s.connected
    ensures r.sources == s.sources && r.nextStart == s.nextStart && r.created == s.created
  {
    var user := s.turn.user;
    var model := s.turn.model;
    var ts :=
      if user != "" || model != "" then
        FinalLinesIn(s.transcript, user, model);
        ReplaceTagged(s.transcript, NotSpeaker, IsSpeaker, Finals(user, model))
      else s.transcript;
    s.(transcript := ts, turn := EmptyTurn)
  }

  // ---------------------------------------------------------------------------
  // Playback

  function Max(a: nat, b: nat): nat { if a >= b then a else b }

  /** Frames of an inbound chunk, or `None` when decoding throws (atob fails,
      odd byte length, or an empty buffer). */
  function ChunkFrames(data: string): (r: Option<nat>)
    ensures r.Some? <==> Decode(data).Some? && |Decode(data).value| % 2 == 0 && |Decode(data).value| >= 2
    ensures r.Some? ==> r.value == |Decode(data).value| / 2 && r.value >= 1
  {
    match Decode(data)
    case None => None
    case Some(bytes) =>
      MonoDecode(bytes);
      match DecodeAudioData(bytes, OutputSampleRate, 1)
      case None => None
      case Some(buf) => Some(buf.frames)
  }

  /** An audio chunk arriving at tick `now`: a new node starts at
      max(nextStart, now), is added to the sources and moves `nextStart` to
      its end; a chunk that fails to decode creates no node and only moves
      `nextStart` to max(nextStart, now). */
  function ScheduleChunk(s: Session, data: string, now: nat): (r: Session)
    ensures r.nextStart >= now && r.nextStart >= s.nextStart
    ensures ChunkFrames(data).Some? ==>
      var p := Playback(s.created, Max(s.nextStart, now), ChunkFrames(data).value);
      && p.start >= now && p.start >= s.nextStart
      && r.sources == s.sources + {p}
      && r.nextStart == p.End()
      && r.created == s.created + 1
    ensures ChunkFrames(data).None? ==>
      r.sources == s.sources && r.nextStart == Max(s.nextStart, now) && r.created == s.created
    ensures r.turn == s.turn && r.transcript == s.transcript
    ensures r.active == s.active && r.connected == s.connected
  {
    var start := Max(s.nextStart, now);
    match ChunkFrames(data)
    case None => s.(nextStart := start)
    case Some(frames) =>
      s.(sources := s.sources + {Playback(s.created, start, frames)}, nextStart := start + frames,
         created := s.created + 1)
  }

  /** Barge-in: every source is stopped and forgotten, `nextStart` goes back
      to 0 (unset) and the model text of the turn is dropped. */
  function Interrupt(s: Session): (r: Session)
    ensures r.sources == {} && r.nextStart == 0 && r.created == s.created
    ensures r.turn == Turn(s.turn.user, "")
    ensures r.transcript == s.transcript
    ensures r.active == s.active && r.connected == s.connected
  {
    s.(sources := {}, nextStart := 0, turn := s.turn.(model := ""))
  }

  /** The audio part of a message: a non-empty chunk is scheduled. */
  function AudioPart<A>(s: Session, msg: Message<A>, now: nat): (r: Session)
    ensures r.turn == s.turn && r.transcript == s.transcript
    ensures r.active == s.active && r.connected == s.connected
  {
    if msg.audio.Some? && msg.audio.value != "" then ScheduleChunk(s, msg.audio.value, now) else s
  }

  /** The text part of a message: the user delta, the model delta and the
      turn end, each when present, in that order. */
  function TextPart<A>(s: Session, msg: Message<A>): (r: Session)
    ensures r.sources == s.sources && r.nextStart == s.nextStart && r.created == s.created
    ensures r.active == s.active && r.connected == s.connected
  {
    var s1 := if msg.inputTranscription.Some? then UserDelta(s, msg.inputTranscription.value) else s;
    var s2 := if msg.outputTranscription.Some? then ModelDelta(s1, msg.outputTranscription.value) else s1;
    if msg.turnComplete then TurnComplete(s2) else s2
  }

  /** The session part of `onmessage`: an interruption ends the processing
      of the message; otherwise audio, user text, model text and turn
      completion are applied in that order. The audio part and the text
      part do not interfere: the schedule is the one the audio alone gives,
      and the turn and list are the ones the text alone gives. */
  function OnMessage<A>(s: Session, msg: Message<A>, now: nat): (r: Session)
    ensures msg.interrupted ==> r == Interrupt(s)
    ensures !msg.interrupted ==>
      && r.sources == AudioPart(s, msg, now).sources && r.nextStart == AudioPart(s, msg, now).nextStart
      && r.created == AudioPart(s, msg, now).created
    ensures !msg.interrupted ==>
      r.turn == TextPart(s, msg).turn && r.transcript == TextPart(s, msg).transcript
    ensures r.active == s.active && r.connected == s.connected
  {
    if msg.interrupted then Interrupt(s)
    else
      var a := AudioPart(s, msg, now);
      TextPartFrame(a, s, msg);
      TextPart(a, msg)
  }

  /** The text part reads only the turn and the list. */
  lemma TextPartFrame<A>(s: Session, t: Session, msg: Message<A>)
    requires s.turn == t.turn && s.transcript == t.transcript
    ensures TextPart(s, msg).turn == TextPart(t, msg).turn
    ensures TextPart(s, msg).transcript == TextPart(t, msg).transcript
  {
    var s1 := if msg.inputTranscription.Some? then UserDelta(s, msg.inputTranscription.value) else s;
    var t1 := if msg.inputTranscription.Some? then UserDelta(t, msg.inputTranscription.value) else t;
    if msg.inputTranscription.Some? {
      UserDeltaFrame(s, t, msg.inputTranscription.value);
    }
    var s2 := if msg.outputTranscription.Some? then ModelDelta(s1, msg.outputTranscription.value) else s1;
    var t2 := if msg.outputTranscription.Some? then ModelDelta(t1, msg.outputTranscription.value) else t1;
    if msg.outputTranscription.Some? {
      ModelDeltaFrame(s1, t1, msg.outputTranscription.value);
    }
    if msg.turnComplete {
      TurnCompleteFrame(s2, t2);
    }
  }

  lemma UserDeltaFrame(s: Session, t: Session, text: string)
    requires s.turn == t.turn && s.transcript == t.transcript
    ensures UserDelta(s, text).turn == UserDelta(t, text).turn
    ensures UserDelta(s, text).transcript == UserDelta(t, text).transcript
  {
  }

  lemma ModelDeltaFrame(s: Session, t: Session, text: string)
    requires s.turn == t.turn && s.transcript == t.transcript
    ensures ModelDelta(s, text).turn == ModelDelta(t, text).turn
    ensures ModelDelta(s, text).transcript == ModelDelta(t, text).transcript
  {
  }

  lemma TurnCompleteFrame(s: Session, t: Session)
    requires s.turn == t.turn && s.transcript == t.transcript
    ensures TurnComplete(s).transcript == TurnComplete(t).transcript
  {
  }


  // ---------------------------------------------------------------------------
  // Tool calls

  /** What awaiting the caller's handler yields: a result, or an exception,
      each with the handler's own state after the call. */
  datatype HandlerStep<H, R> = Returned(state: H, result: R) | Threw(state: H)

  datatype ToolResponse<R> = ToolResponse(id: string, name: string, result: R)

  datatype Dispatched<H, R> = Dispatched(state: H, responses: seq<ToolResponse<R>>, threw: bool)

  /** The handler's state before call `i`, when every earlier call was
      awaited in turn. */
  function StateAt<A, H, R>(h: H, calls: seq<FunctionCall<A>>, handler: (H, string, A) -> HandlerStep<H, R>, i: nat): H
    requires i <= |calls|
    decreases i
  {
    if i == 0 then h
    else StateAt(handler(h, calls[0].name, calls[0].args).state, calls[1..], handler, i - 1)
  }

  /** The `for … of` loop over the calls of one message: each call is awaited
      in turn and answered with a response carrying its id, its name and the
      handler's result. An exception is not caught: it ends the loop, and the
      calls after it get no response. */
  function Dispatch<A, H, R>(h: H, calls: seq<FunctionCall<A>>, handler: (H, string, A) -> HandlerStep<H, R>): (d: Dispatched<H, R>)
    ensures |d.responses| <= |calls|
    ensures d.threw <==> |d.responses| < |calls|
    ensures forall i :: 0 <= i < |d.responses| ==>
      d.responses[i].id == calls[i].id && d.responses[i].name == calls[i].name
    ensures forall i :: 0 <= i < |d.responses| ==>
      handler(StateAt(h, calls, handler, i), calls[i].name, calls[i].args)
        == Returned(StateAt(h, calls, handler, i + 1), d.responses[i].result)
    ensures d.threw ==>
      var k := |d.responses|;
      && handler(StateAt(h, calls, handler, k), calls[k].name, calls[k].args).Threw?
      && d.state == StateAt(h, calls, handler, k + 1)
    ensures !d.threw ==> d.state == StateAt(h, calls, handler, |calls|)
    decreases |calls|
  {
    if |calls| == 0 then Dispatched(h, [], false)
    else
      match handler(h, calls[0].name, calls[0].args)
      case Threw(h1) => Dispatched(h1, [], true)
      case Returned(h1, result) =>
        var rest := Dispatch(h1, calls[1..], handler);
        var d := Dispatched(rest.state, [ToolResponse(calls[0].id, calls[0].name, result)] + rest.responses, rest.threw);
        assert forall i :: 0 < i <= |calls| ==> StateAt(h, calls, handler, i) == StateAt(h1, calls[1..], handler, i - 1);
        assert forall i :: 0 < i < |calls| ==> calls[i] == calls[1..][i - 1];
        assert forall i :: 0 < i < |d.responses| ==> d.responses[i] == rest.responses[i - 1];
        d
  }

  /** A handler that never throws answers every call, in order. */
  lemma {:induction false} DispatchTotal<A, H, R>(h: H, calls: seq<FunctionCall<A>>, handler: (H, string, A) -> HandlerStep<H, R>)
    requires forall h', n, a :: handler(h', n, a).Returned?
    ensures !Dispatch(h, calls, handler).threw
    ensures |Dispatch(h, calls, handler).responses| == |calls|
    decreases |calls|
  {
    if |calls| > 0 {
      var step := handler(h, calls[0].name, calls[0].args);
      DispatchTotal(step.state, calls[1..], handler);
    }
  }

  /** The first response wraps exactly the result the handler returned for
      the first call. */
  lemma DispatchFirst<A, H, R>(h: H, calls: seq<FunctionCall<A>>, handler: (H, string, A) -> HandlerStep<H, R>)
    requires |calls| > 0 && handler(h, calls[0].name, calls[0].args).Returned?
    ensures |Dispatch(h, calls, handler).responses| >= 1
    ensures Dispatch(h, calls, handler).responses[0].result == handler(h, calls[0].name, calls[0].args).result
  {
  }

  datatype Handled<H, R> = Handled(session: Session, state: H, responses: seq<ToolResponse<R>>, threw: bool)

  /** The whole `onmessage`: the session part, then the tool calls when the
      message has any and a handler was supplied. */
  function HandleMessage<A, H, R>(s: Session, h: H, msg: Message<A>, now: nat,
                                  handler: Option<(H, string, A) -> HandlerStep<H, R>>): (r: Handled<H, R>)
    ensures r.session == OnMessage(s, msg, now)
    ensures msg.interrupted || msg.toolCall.None? || handler.None? ==> r.responses == [] && r.state == h && !r.threw
    ensures !msg.interrupted && msg.toolCall.Some? && handler.Some? ==>
      |r.responses| <= |msg.toolCall.value| &&
      (r.threw <==> |r.responses| < |msg.toolCall.value|)
    ensures !msg.interrupted && msg.toolCall.Some? && handler.Some? ==>
      var d := Dispatch(h, msg.toolCall.value, handler.value);
      r.state == d.state && r.responses == d.responses && r.threw == d.threw
  {
    var s' := OnMessage(s, msg, now);
    if msg.interrupted || msg.toolCall.None? || handler.None? then Handled(s', h, [], false)
    else
      var d := Dispatch(h, msg.toolCall.value, handler.value);
      Handled(s', d.state, d.responses, d.threw)
  }

  // ---------------------------------------------------------------------------
  // Lifecycle

  /** `stopSession`: close the handle, stop every source, go inactive and
      reset the turn; `nextStart` and the published list are kept. */
  function Stop(s: Session): (r: Session)
    ensures !r.active && !r.connected && r.sources == {} && r.turn == EmptyTurn
    ensures r.nextStart == s.nextStart && r.transcript == s.transcript && r.created == s.created
  {
    s.(active := false, connected := false, sources := {}, turn := EmptyTurn)
  }

  /** `startSession` as the hook is written: with a key and the microphone
      granted a session handle is held; nothing else changes, in particular
      `nextStart` keeps the value reached on the previous output clock. */
  function StartAsWritten(s: Session, hasApiKey: bool, micGranted: bool): (r: Session)
    ensures !hasApiKey || !micGranted ==> r == s
    ensures hasApiKey && micGranted ==> r == s.(connected := true)
  {
    if !hasApiKey || !micGranted then s else s.(connected := true)
  }

  /** `startSession` with the schedule reset the new output clock needs: the
      new session begins with no sources and `nextStart` unset. This is the
      corrected start; the engine `Step` runs the start as written. */
  function Start(s: Session, hasApiKey: bool, micGranted: bool): (r: Session)
    ensures !hasApiKey || !micGranted ==> r == s
    ensures hasApiKey && micGranted ==>
      r.connected && r.sources == {} && r.nextStart == 0 &&
      r.active == s.active && r.turn == s.turn && r.transcript == s.transcript && r.created == s.created
  {
    if !hasApiKey || !micGranted then s else s.(connected := true, sources := {}, nextStart := 0)
  }

  datatype Event<A> =
    | StartSession(hasApiKey: bool, micGranted: bool)
    | Opened
    | Incoming(msg: Message<A>, now: nat)
    | SourceEnded(p: Playback)
    | StopSession
    | ErrorOrClose
    | ClearTranscript

  /** One step of the engine, with `startSession` as the hook is written: a
      start keeps the schedule reached on the previous output clock. */
  function Step<A>(s: Session, e: Event<A>): (r: Session)
    ensures e.StartSession? ==>
      && r.sources == s.sources && r.nextStart == s.nextStart
      && r.turn == s.turn && r.transcript == s.transcript && r.active == s.active
      && (r.connected <==> s.connected || (e.hasApiKey && e.micGranted))
    ensures e.StopSession? ==>
      && !r.active && !r.connected && r.sources == {} && r.turn == EmptyTurn
      && r.nextStart == s.nextStart && r.transcript == s.transcript
    ensures e.Incoming? ==> r == OnMessage(s, e.msg, e.now)
    ensures e.Incoming? ==> r.active == s.active && r.connected == s.connected
    ensures e.Incoming? && e.msg.interrupted ==> r.sources == {} && r.nextStart == 0
    ensures e.Opened? ==> r == s.(active := true)
    ensures e.ErrorOrClose? ==> r == s.(active := false)
    ensures e.ClearTranscript? ==> r == s.(transcript := [])
    ensures e.SourceEnded? ==> r == s.(sources := s.sources - {e.p})
  {
    match e
    case StartSession(k, m) => StartAsWritten(s, k, m)
    case Opened => s.(active := true)
    case Incoming(msg, now) => OnMessage(s, msg, now)
    case SourceEnded(p) => s.(sources := s.sources - {p})
    case StopSession => Stop(s)
    case ErrorOrClose => s.(active := false)
    case ClearTranscript => s.(transcript := [])
  }

  // ---------------------------------------------------------------------------
  // Properties

  /** Calling stop twice ends where calling it once does. */
  lemma StopIdempotent(s: Session)
    ensures Stop(Stop(s)) == Stop(s)
  {
  }

  /** An interrupted message is processed no further: whatever else it
      carries, the session only sees the interruption and no call is
      dispatched. */
  lemma InterruptedMessageIgnoresRest<A, H, R>(s: Session, h: H, msg: Message<A>, now: nat,
                                               handler: Option<(H, string, A) -> HandlerStep<H, R>>)
    requires msg.interrupted
    ensures HandleMessage(s, h, msg, now, handler) == Handled(Interrupt(s), h, [], false)
  {
  }

  /** Two chunks decoded back to back, with no interruption in between: the
      second starts no earlier than the first ends, so they play in arrival
      order without overlapping, and exactly at the first's end when it
      arrives before that end. */
  lemma ConsecutiveChunks(s: Session, d1: string, now1: nat, d2: string, now2: nat)
    requires ChunkFrames(d1).Some? && ChunkFrames(d2).Some?
    ensures
      var s1 := ScheduleChunk(s, d1, now1);
      var p1 := Playback(s.created, Max(s.nextStart, now1), ChunkFrames(d1).value);
      var p2 := Playback(s.created + 1, Max(s1.nextStart, now2), ChunkFrames(d2).value);
      && p2.start >= p1.End()
      && (now2 <= p1.End() ==> p2.start == p1.End())
      && ScheduleChunk(s1, d2, now2).sources == s.sources + {p1, p2}
  {
  }

  /** The schedule invariant: every source was created already, every source
      ends by `nextStart`, and no two sources overlap. */
  ghost predicate ScheduleOk(s: Session)
  {
    && (forall p :: p in s.sources ==> p.id < s.created)
    && (forall p :: p in s.sources ==> p.End() <= s.nextStart)
    && (forall p, q :: p in s.sources && q in s.sources && p != q ==> p.End() <= q.start || q.End() <= p.start)
  }

  lemma ScheduleChunkKeepsSchedule(s: Session, data: string, now: nat)
    requires ScheduleOk(s)
    ensures ScheduleOk(ScheduleChunk(s, data, now))
  {
    var r := ScheduleChunk(s, data, now);
    if ChunkFrames(data).Some? {
      var p := Playback(s.created, Max(s.nextStart, now), ChunkFrames(data).value);
      forall q | q in r.sources
        ensures q.id < r.created && q.End() <= r.nextStart
      {
        if q != p {
          assert q in s.sources;
        }
      }
      forall q, q' | q in r.sources && q' in r.sources && q != q'
        ensures q.End() <= q'.start || q'.End() <= q.start
      {
        if q == p {
          assert q' in s.sources;
        } else if q' == p {
          assert q in s.sources;
        }
      }
    }
  }

  /** Every step keeps the schedule invariant and the transcript shape. */
  lemma StepKeepsInvariants<A>(s: Session, e: Event<A>)
    requires Ok(s)
    ensures Ok(Step(s, e))
  {
    match e
    case Incoming(msg, now) =>
      OnMessageKeepsInvariants(s, msg, now);
    case _ =>
  }

  ghost predicate Ok(s: Session)
  {
    ScheduleOk(s) && TranscriptOk(s.transcript)
  }

  lemma OnMessageKeepsInvariants<A>(s: Session, msg: Message<A>, now: nat)
    requires Ok(s)
    ensures Ok(OnMessage(s, msg, now))
  {
    if !msg.interrupted {
      var s1 := AudioPart(s, msg, now);
      if msg.audio.Some? && msg.audio.value != "" {
        ScheduleChunkKeepsSchedule(s, msg.audio.value, now);
      }
      assert Ok(s1);
      var s2 := if msg.inputTranscription.Some? then UserDelta(s1, msg.inputTranscription.value) else s1;
      if msg.inputTranscription.Some? {
        UserDeltaKeeps(s1, msg.inputTranscription.value);
      }
      assert Ok(s2);
      var s3 := if msg.outputTranscription.Some? then ModelDelta(s2, msg.outputTranscription.value) else s2;
      if msg.outputTranscription.Some? {
        ModelDeltaKeeps(s2, msg.outputTranscription.value);
      }
      assert Ok(s3);
      if msg.turnComplete {
        TurnCompleteKeeps(s3);
      }
      assert OnMessage(s, msg, now) == TextPart(s1, msg);
    }
  }

  lemma UserDeltaKeeps(s: Session, text: string)
    requires Ok(s)
    ensures Ok(UserDelta(s, text))
  {
    UserDeltaKeepsShape(s.transcript, s.turn.user + text);
  }

  lemma ModelDeltaKeeps(s: Session, text: string)
    requires Ok(s)
    ensures Ok(ModelDelta(s, text))
  {
    ModelDeltaKeepsShape(s.transcript, s.turn.model + text);
  }

  lemma TurnCompleteKeeps(s: Session)
    requires Ok(s)
    ensures Ok(TurnComplete(s))
  {
    TurnCompleteKeepsShape(s);
  }

  lemma FilterSmall(ts: seq<string>, p: string -> bool)
    requires |ts| <= 2
    ensures |ts| == 0 ==> Filter(ts, p) == []
    ensures |ts| == 1 ==> Filter(ts, p) == (if p(ts[0]) then [ts[0]] else [])
    ensures |ts| == 2 ==> Filter(ts, p) == (if p(ts[0]) then [ts[0]] else []) + (if p(ts[1]) then [ts[1]] else [])
  {
    if |ts| == 2 {
      assert ts[..1] == [ts[0]];
      assert Filter(ts[..1], p) == Filter([ts[0]], p);
      assert [ts[0]][..0] == [];
    } else if |ts| == 1 {
      assert ts[..0] == [];
    }
  }

  lemma UserDeltaKeepsShape(ts: seq<string>, user: string)
    requires TranscriptOk(ts)
    ensures TranscriptOk(Filter(ts, NotUser) + [UserLine(user)])
  {
    FilterSmall(ts, NotUser);
    var f := Filter(ts, NotUser);
    assert |f| <= 1 by {
      if |ts| == 2 {
        assert !NotUser(ts[0]) || !NotUser(ts[1]);
      }
    }
    forall i | 0 <= i < |f|
      ensures IsModelLine(f[i])
    {
      assert f[i] in ts;
    }
  }

  lemma ModelDeltaKeepsShape(ts: seq<string>, model: string)
    requires TranscriptOk(ts)
    ensures TranscriptOk(Filter(ts, NotModel) + [ModelLine(model)])
  {
    FilterSmall(ts, NotModel);
    var f := Filter(ts, NotModel);
    assert |f| <= 1 by {
      if |ts| == 2 {
        TagsExclusive(ts[0]);
        TagsExclusive(ts[1]);
        assert !NotModel(ts[0]) || !NotModel(ts[1]);
      }
    }
    forall i | 0 <= i < |f|
      ensures IsUserLine(f[i])
    {
      assert f[i] in ts;
    }
  }

  lemma TurnCompleteKeepsShape(s: Session)
    requires TranscriptOk(s.transcript)
    ensures TranscriptOk(TurnComplete(s).transcript)
  {
    if s.turn.user != "" || s.turn.model != "" {
      TurnCompleteExact(s);
      FinalsOk(s.turn.user, s.turn.model);
    }
  }

  lemma FinalsOk(user: string, model: string)
    ensures TranscriptOk(Finals(user, model))
  {
    var fin := Finals(user, model);
    if user != "" && model != "" {
      assert fin == [UserLine(user), ModelLine(model)];
    }
  }

  /** On a well-formed list, turn completion publishes exactly the final
      lines: the earlier lines of both speakers are gone, and the user's line
      comes before the model's. */
  lemma TurnCompleteExact(s: Session)
    requires TranscriptOk(s.transcript)
    requires s.turn.user != "" || s.turn.model != ""
    ensures TurnComplete(s).transcript == Finals(s.turn.user, s.turn.model)
  {
    var fin := Finals(s.turn.user, s.turn.model);
    FilterNone(s.transcript, NotSpeaker);
    assert TurnComplete(s).transcript == [] + fin;
  }

  /** The published list never holds more than one line per speaker. */
  lemma TranscriptOkAtMostOnePerSpeaker(ts: seq<string>)
    requires TranscriptOk(ts)
    ensures forall i, j :: 0 <= i < j < |ts| && IsUserLine(ts[i]) ==> !IsUserLine(ts[j])
    ensures forall i, j :: 0 <= i < j < |ts| && IsModelLine(ts[i]) ==> !IsModelLine(ts[j])
  {
    if |ts| == 2 {
      TagsExclusive(ts[0]);
      TagsExclusive(ts[1]);
    }
  }

  /** Two user deltas followed by turn complete, starting from an empty turn
      and list, publish exactly one line: the user tag and the two deltas
      concatenated (deltas "He" and "llo" give `[User]: Hello`). */
  lemma DeltasThenTurnComplete(s: Session, a: string, b: string)
    requires s.turn == EmptyTurn && s.transcript == [] && a != ""
    ensures TurnComplete(UserDelta(UserDelta(s, a), b)).transcript == [UserLine(a + b)]
  {
    FirstUserDelta(s, a);
    var s1 := UserDelta(s, a);
    NextUserDelta(s1, a, b);
    var s2 := UserDelta(s1, b);
    SingleUserTurnComplete(s2, a + b);
  }

  lemma FirstUserDelta(s: Session, text: string)
    requires s.turn == EmptyTurn && s.transcript == []
    ensures UserDelta(s, text).turn == Turn(text, "")
    ensures UserDelta(s, text).transcript == [UserLine(text)]
  {
    assert Filter(s.transcript, NotUser) == [];
    assert s.turn.user + text == text;
  }

  lemma NextUserDelta(s: Session, user: string, text: string)
    requires s.turn == Turn(user, "") && s.transcript == [UserLine(user)]
    ensures UserDelta(s, text).turn == Turn(user + text, "")
    ensures UserDelta(s, text).transcript == [UserLine(user + text)]
  {
    FilterNone(s.transcript, NotUser);
  }

  lemma SingleUserTurnComplete(s: Session, user: string)
    requires user != "" && s.turn == Turn(user, "") && s.transcript == [UserLine(user)]
    ensures TurnComplete(s).transcript == [UserLine(user)]
  {
    FilterNone(s.transcript, NotSpeaker);
  }

  /** The finding: with the hook as written, a session stopped after 10 s of
      reply audio and started again (on a new output clock that reads 0)
      schedules its first reply chunk 240000 ticks, 10 s, in the future. */
  lemma RestartDelaysFirstChunk()
    ensures
      var before := Session(true, true, {}, 240000, EmptyTurn, [], 0);
      var s := Step<()>(Step<()>(before, StopSession), StartSession(true, true));
      var msg: Message<()> := Message(false, Some(Encode([0, 0])), None, None, false, None);
      Step(s, Incoming(msg, 0)).sources == {Playback(0, 240000, 1)}
  {
    DecodeEncode([0, 0]);
    var s := Step<()>(Step<()>(Session(true, true, {}, 240000, EmptyTurn, [], 0), StopSession), StartSession(true, true));
    var msg: Message<()> := Message(false, Some(Encode([0, 0])), None, None, false, None);
    assert Encode([0, 0]) != "";
    assert Step(s, Incoming(msg, 0)).sources == ScheduleChunk(s, Encode([0, 0]), 0).sources;
  }

  /** A node's late `onended` removes that node only. After an interruption
      stopped every node, a chunk arriving at any tick gets a new node, and
      the `onended` of a node stopped earlier, even one with the same start
      and length, leaves it scheduled. */
  lemma StaleEndKeepsNewNode<A>(s: Session, data: string, now: nat, stale: Playback)
    requires stale.id < s.created
    requires ChunkFrames(data).Some?
    ensures
      var r := ScheduleChunk(Interrupt(s), data, now);
      && r.sources == {Playback(s.created, now, ChunkFrames(data).value)}
      && Step<A>(r, SourceEnded(stale)) == r
  {
    var r := ScheduleChunk(Interrupt(s), data, now);
    assert stale !in r.sources;
    assert r.sources - {stale} == r.sources;
  }

  /** The corrected start differs from the start as written only in the
      schedule it leaves. */
  lemma StartCorrectsSchedule(s: Session, hasApiKey: bool, micGranted: bool)
    requires hasApiKey && micGranted
    ensures Start(s, hasApiKey, micGranted) == StartAsWritten(s, hasApiKey, micGranted).(sources := {}, nextStart := 0)
  {
  }

  /** With the reset, the first chunk of a new session starts at the new
      clock's current tick. */
  lemma FirstChunkAfterStartPlaysNow(s: Session, data: string, now: nat)
    requires ChunkFrames(data).Some?
    ensures ScheduleChunk(Start(s, true, true), data, now).sources == {Playback(s.created, now, ChunkFrames(data).value)}
  {
  }
}
