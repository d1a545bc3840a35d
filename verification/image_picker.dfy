/** The image-picker screen: a picked image sets the overlay's preview size, is
    shown, and is always handed to the same single-thread worker. The busy flag
    is written but never read here, so no pick is dropped; picks run one at a
    time, in pick order. */
module ImagePicker {
  import opened Wrappers
  import opened Detections
  import PolygonView
  import Worker

  /** The request code the picker is started with. */
  const PickImage: int := 1
  /** The platform's result code for a completed pick. */
  const ResultOk: int := -1

  /** The intent a picker returns, reduced to the image URI it carries. */
  datatype Intent = Intent(uri: Option<string>)

  /** The fixed thresholds every picked image is submitted with. They are
      literals at this screen's call site; the camera passes its own, equal,
      literals. */
  const IouThreshold: real := 0.4
  const ConfThreshold: real := 0.5
  const ClassThreshold: real := 0.5

  /** One queued detection run: the image, its height and width, the thresholds. */
  datatype ImageTask = ImageTask(image: PolygonView.Bitmap, height: int, width: int, iou: real, conf: real, cls: real)

  /** The task a picked image becomes. */
  function TaskFor(b: PolygonView.Bitmap): ImageTask
  {
    ImageTask(b, b.height, b.width, IouThreshold, ConfThreshold, ClassThreshold)
  }

  /** The screen's state: whether the model is loaded, the busy flag, the
      worker, the overlay view, the image shown beside it, and the tag summary
      in the text view (`None` until the first run publishes). */
  datatype Picker = Picker(modelLoaded: bool, busy: bool, worker: Worker.Executor<ImageTask>,
                           view: PolygonView.View, shown: Option<PolygonView.Bitmap>,
                           caption: Option<seq<TagField>>)

  function Init(modelLoaded: bool): (s: Picker)
    ensures !s.busy && Worker.Log(s.worker) == []
  {
    Picker(modelLoaded, false, Worker.Idle(), PolygonView.Fresh, None, None)
  }

  /** A picker result leads to a detection only for the pick request, a
      completed pick, a returned intent, and a URI in it. */
  predicate PickGuard(requestCode: int, resultCode: int, data: Option<Intent>)
  {
    requestCode == PickImage && resultCode == ResultOk && data.Some? && data.value.uri.Some?
  }

  /** `yolo_on_image`: with a model, the flag is raised and the task queued,
      whatever the flag was; without one nothing happens. */
  function OnImage(s: Picker, image: PolygonView.Bitmap, height: int, width: int): (r: Picker)
    ensures r.modelLoaded == s.modelLoaded
    ensures s.modelLoaded ==>
      && r.busy
      && Worker.Log(r.worker) == Worker.Log(s.worker) + [ImageTask(image, height, width, IouThreshold, ConfThreshold, ClassThreshold)]
      && r.worker.finished == s.worker.finished
      && r.view == s.view && r.shown == s.shown && r.caption == s.caption
    ensures !s.modelLoaded ==> r == s
  {
    if s.modelLoaded then
      s.(busy := true, worker := Worker.Execute(s.worker, ImageTask(image, height, width, IouThreshold, ConfThreshold, ClassThreshold)))
    else s
  }

  /** `onActivityResult`. `decoded` is what decoding the URI's image produced;
      `None` when decoding threw, which is caught and ends the handler. A
      decoded image sets the preview size to its width and height and is shown
      before the detection is submitted. */
  function OnActivityResult(s: Picker, requestCode: int, resultCode: int, data: Option<Intent>,
                            decoded: Option<PolygonView.Bitmap>): (r: Picker)
    ensures !PickGuard(requestCode, resultCode, data) || decoded.None? ==> r == s
    ensures PickGuard(requestCode, resultCode, data) && decoded.Some? ==>
      && r.view == PolygonView.SetPreviewSize(s.view, decoded.value.width, decoded.value.height)
      && r.shown == decoded
      && r.caption == s.caption
      && r.modelLoaded == s.modelLoaded
      && (s.modelLoaded ==> r.busy)
      && Worker.Log(r.worker) == Worker.Log(s.worker) + (if s.modelLoaded then [TaskFor(decoded.value)] else [])
      && r.worker.finished == s.worker.finished
  {
    if requestCode == PickImage && resultCode == ResultOk && data.Some? then
      if data.value.uri.Some? then
        match decoded
        case None => s
        case Some(bitmap) =>
          var sized := s.(view := PolygonView.SetPreviewSize(s.view, bitmap.width, bitmap.height));
          var shown := sized.(shown := Some(bitmap));
          OnImage(shown, bitmap, bitmap.height, bitmap.width)
      else s
    else s
  }

  /** The detector returned `output` (null when `None`) for the oldest queued
      image: the flag is cleared; a non-null list replaces the overlay's
      detections wholesale and its tag summary becomes the caption. */
  function Returned(s: Picker, output: Option<seq<Detection>>): (r: Picker)
    requires |s.worker.queue| > 0
    ensures !r.busy
    ensures r.worker == Worker.Finish(s.worker)
    ensures output.Some? ==>
      r.view == PolygonView.SetDetections(s.view, output) && r.caption == Some(TagSummary(output.value))
    ensures output.None? ==> r.view == s.view && r.caption == s.caption
    ensures r.shown == s.shown && r.modelLoaded == s.modelLoaded
  {
    var done := s.(worker := Worker.Finish(s.worker), busy := false);
    match output
    case None => done
    case Some(out) => done.(caption := Some(TagSummary(out)), view := PolygonView.SetDetections(s.view, output))
  }

  /** Building the input tensor or running the detector threw: the task ends
      and the flag stays as it was. */
  function Threw(s: Picker): (r: Picker)
    requires |s.worker.queue| > 0
    ensures r.busy == s.busy && r.view == s.view && r.caption == s.caption
    ensures r.shown == s.shown && r.modelLoaded == s.modelLoaded
    ensures r.worker == Worker.Finish(s.worker)
  {
    s.(worker := Worker.Finish(s.worker))
  }

  datatype Event =
    | Picked(requestCode: int, resultCode: int, data: Option<Intent>, decoded: Option<PolygonView.Bitmap>)
    | RunReturned(output: Option<seq<Detection>>)
    | RunThrew

  function Step(s: Picker, e: Event): Picker
  {
    match e
    case Picked(rq, rs, data, decoded) => OnActivityResult(s, rq, rs, data, decoded)
    case RunReturned(output) => if |s.worker.queue| > 0 then Returned(s, output) else s
    case RunThrew => if |s.worker.queue| > 0 then Threw(s) else s
  }

  function Run(s: Picker, events: seq<Event>): Picker
    decreases |events|
  {
    if |events| == 0 then s else Run(Step(s, events[0]), events[1..])
  }

  /** The tasks a sequence of events submits when a model is loaded: one per
      pick that passes the guard and decodes, in pick order. */
  function AcceptedPicks(events: seq<Event>): seq<ImageTask>
    decreases |events|
  {
    if |events| == 0 then []
    else
      var e := events[0];
      (if e.Picked? && PickGuard(e.requestCode, e.resultCode, e.data) && e.decoded.Some?
       then [TaskFor(e.decoded.value)] else [])
      + AcceptedPicks(events[1..])
  }

  /** With a model loaded, every accepted pick is submitted, whatever the flag,
      and the worker runs them in pick order: the tasks it has finished followed
      by those still queued are exactly the accepted picks, in order. */
  lemma {:induction false} PicksRunInOrder(s: Picker, events: seq<Event>)
    requires s.modelLoaded
    ensures Worker.Log(Run(s, events).worker) == Worker.Log(s.worker) + AcceptedPicks(events)
    ensures Run(s, events).modelLoaded
    decreases |events|
  {
    if |events| == 0 {
      assert Worker.Log(s.worker) + [] == Worker.Log(s.worker);
    } else {
      var e := events[0];
      var t := Step(s, e);
      PicksRunInOrder(t, events[1..]);
      var head := if e.Picked? && PickGuard(e.requestCode, e.resultCode, e.data) && e.decoded.Some?
                  then [TaskFor(e.decoded.value)] else [];
      assert Worker.Log(t.worker) == Worker.Log(s.worker) + head;
      assert Worker.Log(s.worker) + head + AcceptedPicks(events[1..]) == Worker.Log(s.worker) + (head + AcceptedPicks(events[1..]));
    }
  }

  /** The flag is never consulted: whether it is set makes no difference to
      what a pick does to the worker. */
  lemma PickIgnoresBusy(s: Picker, busy: bool, requestCode: int, resultCode: int, data: Option<Intent>,
                        decoded: Option<PolygonView.Bitmap>)
    ensures OnActivityResult(s.(busy := busy), requestCode, resultCode, data, decoded).worker
         == OnActivityResult(s, requestCode, resultCode, data, decoded).worker
  {
  }

  /** A run that throws leaves the flag set, yet the next accepted pick is
      still queued. */
  lemma FailureDoesNotBlockPicks(s: Picker, data: Option<Intent>, b: PolygonView.Bitmap)
    requires s.modelLoaded && |s.worker.queue| > 0
    requires PickGuard(PickImage, ResultOk, data)
    ensures Step(s, RunThrew).busy == s.busy
    ensures Step(Step(s, RunThrew), Picked(PickImage, ResultOk, data, Some(b))).worker.queue
         == s.worker.queue[1..] + [TaskFor(b)]
  {
  }

  /** The preview size is set when an image is picked, the detections when its
      run returns. With two picks queued, the first run's detections are shown
      against the second image's size. */
  lemma StaleGeometry(b1: PolygonView.Bitmap, b2: PolygonView.Bitmap, data: Option<Intent>, out: seq<Detection>)
    requires PickGuard(PickImage, ResultOk, data)
    ensures var r := Run(Init(true), [Picked(PickImage, ResultOk, data, Some(b1)),
                                      Picked(PickImage, ResultOk, data, Some(b2)),
                                      RunReturned(Some(out))]);
      && r.worker.finished == [TaskFor(b1)]
      && r.view.detections == Some(out)
      && r.view.previewW == b2.width && r.view.previewH == b2.height
  {
    var s0 := Init(true);
    var s1 := Step(s0, Picked(PickImage, ResultOk, data, Some(b1)));
    var s2 := Step(s1, Picked(PickImage, ResultOk, data, Some(b2)));
    assert s2.worker.queue == [TaskFor(b1), TaskFor(b2)];
    var s3 := Step(s2, RunReturned(Some(out)));
    var e1, e2, e3 := Picked(PickImage, ResultOk, data, Some(b1)), Picked(PickImage, ResultOk, data, Some(b2)),
                      RunReturned(Some(out));
    assert Run(s2, [e3]) == Run(s3, []) == s3;
    assert [e2, e3][1..] == [e3];
    assert Run(s1, [e2, e3]) == s3;
    assert [e1, e2, e3][1..] == [e2, e3];
    assert Run(s0, [e1, e2, e3]) == s3;
  }
}
