/** The client's state and its transitions
    (realtime-visualizer/src/sections/DemoSection.jsx): the selected
    visualization, the three chart series and the connection-error flag,
    changed by the mode toggle, by messages from the server, and by each
    attempt to send a captured frame. Camera, canvas, encoding, timers and
    the socket itself are outside the model; what they report is input. */
module Demo {
  import opened Wrappers
  import opened Seqs
  import Utils
  import Heatmap
  import Relay

  /** The three visualization modes and their wire names. */
  datatype Vis = HeatmapVis | LineVis | PieVis

  function Tag(v: Vis): string {
    match v
    case HeatmapVis => "heatmap"
    case LineVis => "line"
    case PieVis => "pie"
  }

  /** One distance reading of the line chart. */
  datatype Reading = Reading(timestamp: string, distance: real)

  /** The `data` member of a server reply, read the three ways the handler
      reads it: whole, as a heatmap sample; its `facePoints` as emotion
      entries; its `facePoints` as distance readings. */
  datatype Payload = Payload(
    sample: Heatmap.Sample,
    emotions: Option<seq<Utils.Entry>>,
    readings: Option<seq<Reading>>)

  /** A parsed server message: one carrying a `type` string and `data`, or
      one without a `type` (the server's `{error: ...}` replies). */
  datatype ServerMessage = Tagged(kind: string, data: Payload) | Untagged

  /** The component state the model tracks. */
  datatype State = State(
    selectedVis: Vis,
    heatmap: seq<Heatmap.Sample>,
    pie: seq<Utils.Entry>,
    line: seq<Reading>,
    connectionError: bool)

  /** The state on mount: heatmap mode, empty series, no error. */
  const Initial: State := State(HeatmapVis, [], [], [], false)

  /** The three series are all empty. */
  predicate Cleared(s: State) {
    s.heatmap == [] && s.pie == [] && s.line == []
  }

  /** How many of the three series differ between two states. */
  function SeriesChanged(s: State, t: State): nat {
    (if s.heatmap != t.heatmap then 1 else 0) +
    (if s.pie != t.pie then 1 else 0) +
    (if s.line != t.line then 1 else 0)
  }

  /** `handleVisChange`: the toggle reports None when the selected button is
      clicked again, and nothing changes; any other choice selects it and
      empties all three series. */
  function HandleVisChange(s: State, newVis: Option<Vis>): (t: State)
    ensures newVis.None? ==> t == s
    ensures newVis.Some? ==> t.selectedVis == newVis.value && Cleared(t)
    ensures t.connectionError == s.connectionError
  {
    match newVis
    case None => s
    case Some(v) => s.(selectedVis := v, heatmap := [], pie := [], line := [])
  }

  /** `onMessageCallback`: None is an event whose text does not parse as
      JSON, or parses as `null`; both are ignored. A tagged message updates
      the series its type names; any other message changes nothing. */
  function OnMessage(s: State, msg: Option<ServerMessage>): (t: State)
    ensures t.selectedVis == s.selectedVis && t.connectionError == s.connectionError
    ensures SeriesChanged(s, t) <= 1
    ensures msg.None? || msg.value.Untagged? ==> t == s
    ensures msg.Some? && msg.value.Tagged? && msg.value.kind !in {"heatmap", "pie", "line"} ==> t == s
  {
    match msg
    case None => s
    case Some(Untagged) => s
    case Some(Tagged(kind, data)) =>
      if kind == Tag(HeatmapVis) then s.(heatmap := s.heatmap + [data.sample])
      else if kind == Tag(PieVis) then s.(pie := Utils.UpdatePieChartData(Some(s.pie), data.emotions))
      else if kind == Tag(LineVis) then s.(line := Utils.UpdateLineChartData(Some(s.line), data.readings))
      else s
  }

  /** A heatmap message appends exactly its payload to the heatmap series. */
  lemma HeatmapMessageAppends(s: State, data: Payload)
    ensures var t := OnMessage(s, Some(Tagged("heatmap", data)));
            |t.heatmap| == |s.heatmap| + 1 && t.heatmap[..|s.heatmap|] == s.heatmap &&
            t.heatmap[|s.heatmap|] == data.sample && t.pie == s.pie && t.line == s.line
  {
  }

  /** A pie message merges its entries into the running totals: every
      label's new value is its old value plus the sum the message brings. */
  lemma PieMessageMerges(s: State, data: Payload)
    ensures var t := OnMessage(s, Some(Tagged("pie", data)));
            t.heatmap == s.heatmap && t.line == s.line &&
            forall l :: Utils.Find(t.pie, l) == Utils.ExpectedTotal(s.pie, data.emotions.GetOr([]), l)
  {
    Utils.PieTotals(Some(s.pie), data.emotions);
  }

  /** A line message appends its readings, in order, to the line series. */
  lemma LineMessageAppends(s: State, data: Payload)
    ensures var t := OnMessage(s, Some(Tagged("line", data)));
            t.line == s.line + data.readings.GetOr([]) && t.heatmap == s.heatmap && t.pie == s.pie
  {
  }

  /** What the capture loop can see of the video element. */
  datatype Video = Video(present: bool, readyState: int, videoWidth: int)

  /** `HAVE_ENOUGH_DATA`, the ready state a frame is captured in. */
  const HaveEnoughData: int := 4

  /** The guard at the top of `captureAndSendFrame`. */
  predicate VideoReady(v: Video) {
    v.present && v.readyState == HaveEnoughData && v.videoWidth != 0
  }

  /** The outcome of one capture tick: the new state and the message sent. */
  datatype Capture = Capture(state: State, sent: Option<Relay.Inbound>)

  /** `captureAndSendFrame` as the capture interval runs it, given the video
      state, whether the socket is open, and the encoded frame
      (`toDataURL(...).split(",")[1]`, None when the data URL has no comma).
      The interval calls the closure of the render that created it, and the
      interval is re-created only when streaming starts or the mode changes:
      `capturedError` is the `connectionError` that closure holds, which is
      what the open-socket branch tests before clearing the flag. The mode
      the frame is tagged with is always the current one, because a mode
      change re-creates the interval. */
  function CaptureAndSendAsWritten(s: State, video: Video, socketOpen: bool, frame: Option<string>,
                                   capturedError: bool): (c: Capture)
    ensures !VideoReady(video) ==> c == Capture(s, None)
    ensures VideoReady(video) && socketOpen ==>
              c.sent == Some(Relay.Inbound(Some(Tag(s.selectedVis)), frame)) &&
              (c.state.connectionError <==> s.connectionError && !capturedError)
    ensures VideoReady(video) && !socketOpen ==> c.sent.None? && c.state.connectionError
    ensures c.state.(connectionError := s.connectionError) == s
  {
    if !VideoReady(video) then Capture(s, None)
    else if socketOpen then
      var t := if capturedError then s.(connectionError := false) else s;
      Capture(t, Some(Relay.Inbound(Some(Tag(s.selectedVis)), frame)))
    else Capture(s.(connectionError := true), None)
  }

  /** The stale flag: an interval created while the flag was clear (the
      state on mount, say) keeps reading it as clear. If one of its ticks
      finds the socket not yet open, the flag is set; once the socket is
      open the next tick of the same interval sends its frame but leaves
      the flag set, so the error message keeps hiding the charts. */
  lemma StaleFlagStaysSet(s: State, video: Video, frame1: Option<string>, frame2: Option<string>)
    requires VideoReady(video) && !s.connectionError
    ensures var c1 := CaptureAndSendAsWritten(s, video, false, frame1, s.connectionError);
            var c2 := CaptureAndSendAsWritten(c1.state, video, true, frame2, s.connectionError);
            c1.state.connectionError && c2.sent.Some? && c2.state.connectionError
  {
  }

  /** One capture tick as evidently intended: a frame that goes out clears
      the error flag, one that cannot be sent sets it. */
  function CaptureAndSend(s: State, video: Video, socketOpen: bool, frame: Option<string>): (c: Capture)
    ensures !VideoReady(video) ==> c == Capture(s, None)
    ensures VideoReady(video) && socketOpen ==>
              c.sent == Some(Relay.Inbound(Some(Tag(s.selectedVis)), frame)) && !c.state.connectionError
    ensures VideoReady(video) && !socketOpen ==> c.sent.None? && c.state.connectionError
    ensures c.state.(connectionError := s.connectionError) == s
  {
    if !VideoReady(video) then Capture(s, None)
    else if socketOpen then
      Capture(s.(connectionError := false), Some(Relay.Inbound(Some(Tag(s.selectedVis)), frame)))
    else Capture(s.(connectionError := true), None)
  }

  /** The intended tick is the tick as written, run with the current flag
      rather than the one the interval's closure captured. */
  lemma FreshClosureAgrees(s: State, video: Video, socketOpen: bool, frame: Option<string>)
    ensures CaptureAndSend(s, video, socketOpen, frame)
         == CaptureAndSendAsWritten(s, video, socketOpen, frame, s.connectionError)
  {
  }

  /** With the intended tick, a connection that comes up after a failed
      tick clears the error on the next frame sent. */
  lemma RecoversOnReconnect(s: State, video: Video, frame1: Option<string>, frame2: Option<string>)
    requires VideoReady(video)
    ensures var c1 := CaptureAndSend(s, video, false, frame1);
            var c2 := CaptureAndSend(c1.state, video, true, frame2);
            c1.state.connectionError && c2.sent.Some? && !c2.state.connectionError
  {
  }

  /* ---------------------------------------------------------------- */
  /* Client and relay together                                         */
  /* ---------------------------------------------------------------- */

  /** Each mode's wire name is a type the relay dispatches. */
  lemma EveryModeIsRouted(v: Vis)
    ensures Relay.ScriptFor(Tag(v)).Some?
    ensures Relay.KindOf(Relay.ScriptFor(Tag(v)).value) == Tag(v)
  {
  }

  /** How the client sees a relay reply once parsed. */
  function Received(o: Relay.Outbound<Payload>): ServerMessage {
    match o
    case Reply(kind, data) => Tagged(kind, data)
    case Failure(_) => Untagged
  }

  /** The series of each mode has changed between two states. */
  predicate OnlySeriesOf(v: Vis, s: State, t: State) {
    && (v != HeatmapVis ==> t.heatmap == s.heatmap)
    && (v != PieVis ==> t.pie == s.pie)
    && (v != LineVis ==> t.line == s.line)
  }

  /** A frame sent in mode `v` whose worker run yields a reply lands in the
      series of mode `v` and no other, as long as the mode was not changed
      meanwhile; an error reply changes nothing. */
  lemma RepliesLandInTheirMode(s: State, video: Video, frame: Option<string>,
                               run: Relay.WorkerRun, parse: string -> Option<Payload>, o: Relay.Outbound<Payload>)
    requires VideoReady(video)
    requires o in Relay.HandleMessage(CaptureAndSend(s, video, true, frame).sent.value, run, parse).sent
    ensures OnlySeriesOf(s.selectedVis, s, OnMessage(s, Some(Received(o))))
    ensures o.Failure? ==> OnMessage(s, Some(Received(o))) == s
  {
    var msg := CaptureAndSend(s, video, true, frame).sent.value;
    var h := Relay.HandleMessage(msg, run, parse);
    if o.Reply? {
      assert Some(o.kind) == msg.kind;
    }
  }

  /** The invariant the client keeps: the pie series names each label once,
      so the chart never draws two slices for one emotion. */
  ghost predicate PieLabelsDistinct(s: State) {
    Distinct(Utils.Labels(s.pie))
  }

  /** The invariant holds on mount and across every transition. */
  lemma PieLabelsStayDistinct(s: State, newVis: Option<Vis>, msg: Option<ServerMessage>,
                              video: Video, socketOpen: bool, frame: Option<string>)
    requires PieLabelsDistinct(s)
    ensures PieLabelsDistinct(Initial)
    ensures PieLabelsDistinct(HandleVisChange(s, newVis))
    ensures PieLabelsDistinct(OnMessage(s, msg))
    ensures PieLabelsDistinct(CaptureAndSend(s, video, socketOpen, frame).state)
    ensures forall capturedError :: PieLabelsDistinct(CaptureAndSendAsWritten(s, video, socketOpen, frame, capturedError).state)
  {
    if msg.Some? && msg.value.Tagged? && msg.value.kind == "pie" {
      Utils.PieLabels(Some(s.pie), msg.value.data.emotions);
    }
  }
}
