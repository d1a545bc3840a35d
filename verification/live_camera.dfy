/** The live-camera screen: every analyzed frame updates the overlay's preview
    size and, when its planes could be collected, is offered to a single-flight
    scheduler. A busy flag admits at most one detection task at a time; frames
    arriving while it is set are dropped. The flag is cleared only once the
    detector has returned, so a run that throws leaves it set for good. */
module LiveCamera {
  import opened Wrappers
  import opened Detections
  import PolygonView
  import Worker

  type Bytes = seq<bv8>

  /** The pixel formats the analyzer distinguishes: the three multi-plane YUV
      formats and everything else. */
  datatype PixelFormat = Yuv420_888 | Yuv422_888 | Yuv444_888 | OtherFormat

  predicate IsYuv(format: PixelFormat)
  {
    format == Yuv420_888 || format == Yuv422_888 || format == Yuv444_888
  }

  /** What the analyzer reads from one camera frame: its size, its format,
      whether the underlying media image is available, and the remaining bytes
      of each of its planes, in plane order. */
  datatype CameraFrame = CameraFrame(width: int, height: int, format: PixelFormat, hasImage: bool, planes: seq<Bytes>)

  /** Reading plane 0 of a frame that has no planes throws. */
  datatype CollectError = NoPlane

  /** The byte arrays copied out of a frame: every plane of a YUV frame whose
      image is available (none when it is not), plane 0 of any other frame. */
  function CollectPlanes(f: CameraFrame): (r: Result<seq<Bytes>, CollectError>)
    ensures r.Failure? <==> !IsYuv(f.format) && |f.planes| == 0
    ensures r.Success? && IsYuv(f.format) ==> r.value == if f.hasImage then f.planes else []
    ensures r.Success? && !IsYuv(f.format) ==> |r.value| == 1 && r.value[0] == f.planes[0]
  {
    if IsYuv(f.format) then Success(if f.hasImage then f.planes else [])
    else if |f.planes| == 0 then Failure(NoPlane)
    else Success([f.planes[0]])
  }

  /** The frames the analyzer offers to the scheduler: those whose collected
      list is non-empty. */
  predicate OffersFrame(f: CameraFrame)
  {
    CollectPlanes(f).Success? && |CollectPlanes(f).value| > 0
  }

  /** A frame is offered exactly when it is a YUV frame with an available image
      and at least one plane, or any other frame with at least one plane. */
  lemma OffersFrameIff(f: CameraFrame)
    ensures OffersFrame(f) <==> |f.planes| > 0 && (IsYuv(f.format) ==> f.hasImage)
  {
  }

  /** The fixed thresholds every frame is submitted with. They are literals at
      this screen's call site; the picker passes its own, equal, literals. */
  const IouThreshold: real := 0.4
  const ConfThreshold: real := 0.5
  const ClassThreshold: real := 0.5

  /** One queued detection run: the collected planes, the frame's height and
      width, and the three thresholds. */
  datatype FrameTask = FrameTask(planes: seq<Bytes>, height: int, width: int, iou: real, conf: real, cls: real)

  /** The screen's state: whether the detector model is loaded, the busy flag,
      the worker, the overlay view, and the tag summary shown in the text view
      (`None` until the first run publishes). */
  datatype Camera = Camera(modelLoaded: bool, busy: bool, worker: Worker.Executor<FrameTask>,
                           view: PolygonView.View, caption: Option<seq<TagField>>)

  /** The screen as created: nothing in flight, an empty overlay. */
  function Init(modelLoaded: bool): (s: Camera)
    ensures !s.busy && Worker.Log(s.worker) == []
  {
    Camera(modelLoaded, false, Worker.Idle(), PolygonView.Fresh, None)
  }

  /** `yolo_on_frame`: a frame is queued only if the model is loaded and no
      detection is in flight, and the flag is raised before queuing; otherwise
      the frame is dropped and nothing changes. */
  function OnFrame(s: Camera, planes: seq<Bytes>, height: int, width: int): (r: Camera)
    ensures r != s <==> s.modelLoaded && !s.busy
    ensures s.modelLoaded && !s.busy ==>
      && r.busy
      && Worker.Log(r.worker) == Worker.Log(s.worker) + [FrameTask(planes, height, width, IouThreshold, ConfThreshold, ClassThreshold)]
      && r.worker.finished == s.worker.finished
      && r.view == s.view && r.caption == s.caption && r.modelLoaded == s.modelLoaded
  {
    if s.modelLoaded && !s.busy then
      var task := FrameTask(planes, height, width, IouThreshold, ConfThreshold, ClassThreshold);
      s.(busy := true, worker := Worker.Execute(s.worker, task))
    else s
  }

  /** The analyzer on one frame: the preview size becomes the frame's width and
      height whether or not the frame is submitted, then the collected planes
      are offered when there are any. */
  function Analyze(s: Camera, f: CameraFrame): (r: Camera)
    ensures r.view == PolygonView.SetPreviewSize(s.view, f.width, f.height)
    ensures r.caption == s.caption && r.modelLoaded == s.modelLoaded && r.worker.finished == s.worker.finished
    ensures Worker.Log(r.worker) != Worker.Log(s.worker) <==> OffersFrame(f) && s.modelLoaded && !s.busy
    ensures Worker.Log(r.worker) != Worker.Log(s.worker) ==>
      r.busy && Worker.Log(r.worker) == Worker.Log(s.worker) +
        [FrameTask(CollectPlanes(f).value, f.height, f.width, IouThreshold, ConfThreshold, ClassThreshold)]
    ensures Worker.Log(r.worker) == Worker.Log(s.worker) ==> r.busy == s.busy && r.worker == s.worker
  {
    var posted := s.(view := PolygonView.SetPreviewSize(s.view, f.width, f.height));
    match CollectPlanes(f)
    case Failure(_) => posted
    case Success(frameBytes) =>
      if |frameBytes| > 0 then OnFrame(posted, frameBytes, f.height, f.width) else posted
  }

  /** The detector returned `output` (null when `None`) for the running task.
      The flag is cleared first; a non-null list then replaces the overlay's
      detections wholesale and its tag summary becomes the caption. A null
      list makes the tag loop throw, so nothing is published. */
  function Returned(s: Camera, output: Option<seq<Detection>>): (r: Camera)
    requires |s.worker.queue| > 0
    ensures !r.busy && r.modelLoaded == s.modelLoaded
    ensures r.worker == Worker.Finish(s.worker)
    ensures output.Some? ==>
      r.view == PolygonView.SetDetections(s.view, output) && r.caption == Some(TagSummary(output.value))
    ensures output.None? ==> r.view == s.view && r.caption == s.caption
  {
    var done := s.(worker := Worker.Finish(s.worker), busy := false);
    match output
    case None => done
    case Some(out) => done.(caption := Some(TagSummary(out)), view := PolygonView.SetDetections(s.view, output))
  }

  /** Converting the frame or running the detector threw: the exception is
      printed and the task ends, with the flag still set. When that task was
      the only one in flight, the scheduler is left wedged: flag set, nothing
      queued. */
  function Threw(s: Camera): (r: Camera)
    requires |s.worker.queue| > 0
    ensures r.busy == s.busy && r.view == s.view && r.caption == s.caption && r.modelLoaded == s.modelLoaded
    ensures r.worker == Worker.Finish(s.worker)
    ensures SingleFlight(s) ==> Wedged(r)
  {
    s.(worker := Worker.Finish(s.worker))
  }

  /** What can happen next: a frame is analyzed, or the running task ends. */
  datatype Event = Analyzed(frame: CameraFrame) | RunReturned(output: Option<seq<Detection>>) | RunThrew

  /** One event. A task can only end while one is queued; otherwise the event
      changes nothing. */
  function Step(s: Camera, e: Event): Camera
  {
    match e
    case Analyzed(f) => Analyze(s, f)
    case RunReturned(output) => if |s.worker.queue| > 0 then Returned(s, output) else s
    case RunThrew => if |s.worker.queue| > 0 then Threw(s) else s
  }

  function Run(s: Camera, events: seq<Event>): Camera
    decreases |events|
  {
    if |events| == 0 then s else Run(Step(s, events[0]), events[1..])
  }

  /** At most one task is queued or running, and while one is the flag is set. */
  predicate SingleFlight(s: Camera)
  {
    |s.worker.queue| <= 1 && (|s.worker.queue| == 1 ==> s.busy)
  }

  lemma StepKeepsSingleFlight(s: Camera, e: Event)
    requires SingleFlight(s)
    ensures SingleFlight(Step(s, e))
  {
  }

  /** Single flight holds after any sequence of events from a state where it
      holds, and so from the initial state. */
  lemma {:induction false} RunKeepsSingleFlight(s: Camera, events: seq<Event>)
    requires SingleFlight(s)
    ensures SingleFlight(Run(s, events))
    decreases |events|
  {
    if |events| > 0 {
      StepKeepsSingleFlight(s, events[0]);
      RunKeepsSingleFlight(Step(s, events[0]), events[1..]);
    }
  }

  lemma AtMostOneInFlight(modelLoaded: bool, events: seq<Event>)
    ensures |Run(Init(modelLoaded), events).worker.queue| <= 1
  {
    RunKeepsSingleFlight(Init(modelLoaded), events);
  }

  /** While a task is in flight every analyzed frame is dropped: the worker is
      untouched, only the preview size follows the frames. */
  lemma {:induction false} BusyDropsFrames(s: Camera, events: seq<Event>)
    requires s.busy
    requires forall i :: 0 <= i < |events| ==> events[i].Analyzed?
    ensures Run(s, events).worker == s.worker
    ensures Run(s, events).busy
    ensures Run(s, events).view.detections == s.view.detections
    decreases |events|
  {
    if |events| > 0 {
      BusyDropsFrames(Step(s, events[0]), events[1..]);
    }
  }

  /** The state a throwing run leaves behind: the flag set, nothing in flight. */
  predicate Wedged(s: Camera)
  {
    s.busy && |s.worker.queue| == 0
  }

  /** Once wedged, nothing is ever submitted or published again: the worker,
      the displayed detections and the caption stay as they are. */
  lemma {:induction false} WedgedForever(s: Camera, events: seq<Event>)
    requires Wedged(s)
    ensures Wedged(Run(s, events))
    ensures Run(s, events).worker == s.worker
    ensures Run(s, events).view.detections == s.view.detections
    ensures Run(s, events).view.invalidations == s.view.invalidations
    ensures Run(s, events).caption == s.caption
    decreases |events|
  {
    if |events| > 0 {
      WedgedForever(Step(s, events[0]), events[1..]);
    }
  }

  /** A run that returns reopens admission: the next offered frame is queued. */
  lemma SuccessReopens(s: Camera, output: Option<seq<Detection>>, f: CameraFrame)
    requires SingleFlight(s) && |s.worker.queue| == 1 && s.modelLoaded
    requires OffersFrame(f)
    ensures |Step(Step(s, RunReturned(output)), Analyzed(f)).worker.queue| == 1
  {
  }
}
