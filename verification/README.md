# YOLO segmentation overlay: a Dafny model

This project models the sequential core of an Android app that shows object
detection and segmentation results over a live camera feed or a picked image.
The model has three parts:

- **The overlay view** (`PolygonView`). The view stores the latest detection
  list and the preview size. A redraw turns them into an ordered list of draw
  commands for a view of a given size. Each command is a background bitmap, a
  closed filled path, or a text label. A fixed tag→style table picks the
  colours. The coordinate formulas are the app's own:
  - `factorX` is a real quotient.
  - `factorY` is the integer quotient of the two heights.
  - Polygon points are shifted by `padY` on x and by `2·padY` on y.
  - Box corners are not padded.
- **The live-camera scheduler** (`LiveCamera`). The analyzer always posts the
  frame's size to the view. It submits the frame's planes only when the model
  is loaded and no detection is in flight. A busy flag guards submission. The
  flag is cleared only when the detector returns, so a run that throws leaves
  the scheduler wedged for good.
- **The image-picker scheduler** (`ImagePicker`). It uses the same
  single-thread worker and tag summary but never reads the flag. Every
  accepted pick is queued and runs in pick order.

Shared pieces:

- `Detections` holds the detection records and the tag summary.
- `Worker` is the FIFO single-thread executor.
- `JavaNum` models Java `double` and truncating `int` division.
  - `double` is `Finite(real)` or `NonFinite`, with rounding ignored.
    `NonFinite` covers both infinities and NaN.
  - A zero preview width is therefore not an error: the geometry just becomes
    non-finite, as in Java.
  - A zero preview height makes the integer division throw. So does a
    detection without a tag, because the style switch throws on null. The
    render result reports both as errors.

Thread hops are abstracted into a sequential interleaving of events: a frame
is analyzed, a pick result arrives, or the running task returns or throws.
Work posted to the UI thread takes effect at the event that posts it.

Points where the code's behaviour is easy to mistake for something else:

- The geometry is not an aspect-preserving letterbox. `factorY` is an integer
  quotient, polygon x gets `padY`, polygon y gets `2·padY`, and box corners get
  no padding (see `PolygonView.ScenarioGeometry`).
- A run that throws leaves the busy flag set (see `LiveCamera.WedgedForever`).
- Preview size and detections are set at different events in both screens:
  the size when a frame is analyzed or an image is picked, the detections when
  a run returns. In the picker, a queued second pick can therefore pair the
  first run's detections with the second image's size (see
  `ImagePicker.StaleGeometry`).
- Any non-empty polygon is drawn, even one with a single point.

## Model

| member | source | states |
|---|---|---|
| `PolygonView.StyleOf` | app/src/main/java/com/example/yolosegmentation/view/PolygonView.java:94-130 | text is red 0xFFFF0000 and fill 0x80FF0000 exactly for the three `*_disconnected` tags; every other tag, unknown ones included, gets text 0xFF00FF00 and fill 0xFF00FF0 |
| `JavaNum.IntDiv` | app/src/main/java/com/example/yolosegmentation/view/PolygonView.java:91 | Java `int` division of a non-negative height truncates toward zero: `q·b` never exceeds the dividend and falls short of it by less than one divisor |
| `PolygonView.ComputeGeometry` | app/src/main/java/com/example/yolosegmentation/view/PolygonView.java:86-92 | fails (division by zero) exactly when the preview height is 0; otherwise `factorX·previewW = viewW`, `factorY` is the truncated quotient `viewH / previewH`, and `2·padY·previewW = viewH·previewW − viewW·previewH`; with a zero preview width, factorX and padY are non-finite |
| `PolygonView.MapPoint` | app/src/main/java/com/example/yolosegmentation/view/PolygonView.java:136-139 | a polygon point (x, y) lands at (x·factorX + padY, y·factorY + 2·padY); a non-finite padding makes both coordinates non-finite |
| `PolygonView.Commands` | app/src/main/java/com/example/yolosegmentation/view/PolygonView.java:131-162 | a tagged detection yields its path (if its polygon is present and non-empty) then its label (if its box has exactly 5 entries); the path passes through every mapped point in input order with the tag's fill; the label shows (tag, b4·100) at (b0·factorX, b1·factorY − 10) with the tag's text colour, and no rectangle is drawn |
| `PolygonView.RenderAll` | app/src/main/java/com/example/yolosegmentation/view/PolygonView.java:93-163 | the loop fails exactly when some detection has no tag, naming the first such one; otherwise it draws exactly the sum of the per-detection contributions (0, 1 or 2 each) |
| `PolygonView.RenderAllConcat` | app/src/main/java/com/example/yolosegmentation/view/PolygonView.java:93-163 | detections are drawn in list order: rendering `a + b` is rendering `a` followed by rendering `b` (`Then`), the first missing tag wins, and one in `b` is reported at its position in the whole list |
| `PolygonView.RenderAllSingle` | app/src/main/java/com/example/yolosegmentation/view/PolygonView.java:93-130 | a single detection renders to its own commands, or fails at index 0 when it has no tag |
| `PolygonView.Overlay` | app/src/main/java/com/example/yolosegmentation/view/PolygonView.java:82-93 | a null or empty list draws nothing; a non-empty list fails with division by zero when the preview height is 0, and otherwise is the detection loop run with the geometry computed from the preview and view sizes, so it fails exactly when some detection has no tag |
| `PolygonView.OnDraw` | app/src/main/java/com/example/yolosegmentation/view/PolygonView.java:73-84 | a successful redraw is the background image (if set) followed by the overlay's commands; with a null or empty list the image is the only thing drawn; the redraw fails exactly when the overlay does |
| `PolygonView.SetDetections` | app/src/main/java/com/example/yolosegmentation/view/PolygonView.java:58-61 | replaces the whole list, keeps preview size and image, and requests one redraw |
| `PolygonView.SetPreviewSize` | app/src/main/java/com/example/yolosegmentation/view/PolygonView.java:63-66 | changes only the two dimensions; detections untouched and no redraw requested |
| `PolygonView.SetImageBitmap` | app/src/main/java/com/example/yolosegmentation/view/PolygonView.java:68-71 | sets the background image and requests a redraw, leaving detections and preview size alone |
| `PolygonView.FreshView` | app/src/main/java/com/example/yolosegmentation/view/PolygonView.java:18-23 | a new view (empty list, 0×0 preview) draws nothing, and once given a non-empty list without a preview size every redraw fails with division by zero |
| `PolygonView.ReplaceIsWholesale` | app/src/main/java/com/example/yolosegmentation/view/PolygonView.java:58-61 | after `SetDetections` the drawing no longer depends on the previous list |
| `PolygonView.ScenarioGeometry` | app/src/main/java/com/example/yolosegmentation/view/PolygonView.java:86-161 | for a 640×480 preview in a 1080×1920 view: factorX 1.6875, factorY 4, padY 555; point (100,100) lands at (723.75, 1510); box [100,100,200,150,0.87] labels "usb_disconnected" 87 at (168.75, 390) in red |
| `Detections.TagSummary` | app/src/main/java/com/example/yolosegmentation/LiveCameraActivity.java:241-246 | the summary holds no absent tags, is no longer than the output, and contains a tag exactly when some output entry carries it |
| `Detections.TagSummaryConcat` | app/src/main/java/com/example/yolosegmentation/ImagePickerActivity.java:142-147 | the summary keeps output order: the summary of `a + b` is the summary of `a` followed by that of `b` |
| `Detections.TagSummaryKeepsDuplicates` | app/src/main/java/com/example/yolosegmentation/LiveCameraActivity.java:241-246 | every present tag occurs in the summary as often as entries carry it |
| `Worker.Execute` | app/src/main/java/com/example/yolosegmentation/ImagePickerActivity.java:162 | a submitted task joins the back of the queue: the submission log grows by exactly that task |
| `Worker.Finish` | app/src/main/java/com/example/yolosegmentation/ImagePickerActivity.java:59 | the task that ends is the oldest queued one; the submission log is unchanged, so completion order is submission order |
| `LiveCamera.CollectPlanes` | app/src/main/java/com/example/yolosegmentation/LiveCameraActivity.java:126-148 | YUV 420/422/444 frames give every plane in plane order, or none without an image; other formats give exactly plane 0, and fail when there is no plane |
| `LiveCamera.OffersFrameIff` | app/src/main/java/com/example/yolosegmentation/LiveCameraActivity.java:130-153 | a frame is submitted exactly when it has a plane and, for YUV formats, its image is available |
| `LiveCamera.Init` | app/src/main/java/com/example/yolosegmentation/LiveCameraActivity.java:55 | the flag starts clear and nothing has been submitted |
| `LiveCamera.OnFrame` | app/src/main/java/com/example/yolosegmentation/LiveCameraActivity.java:258-264 | the state changes exactly when the model is loaded and no detection is in flight; then the flag is set and one task with thresholds 0.4/0.5/0.5 is queued, otherwise the frame is dropped |
| `LiveCamera.Analyze` | app/src/main/java/com/example/yolosegmentation/LiveCameraActivity.java:118-153 | every frame sets the preview size to its (width, height); a task is queued exactly when the frame is offered, the model is loaded and the flag is clear, carrying the collected planes, height, width and thresholds 0.4/0.5/0.5 |
| `LiveCamera.Returned` | app/src/main/java/com/example/yolosegmentation/LiveCameraActivity.java:239-251 | a run that returns clears the flag and ends the oldest task; a non-null output replaces the displayed detections wholesale and its tag summary becomes the caption; a null output publishes nothing |
| `LiveCamera.Threw` | app/src/main/java/com/example/yolosegmentation/LiveCameraActivity.java:233-254 | a run that throws ends its task and leaves the flag, the view and the caption as they were; when it was the only task in flight, the flag stays set with nothing queued (wedged) |
| `LiveCamera.StepKeepsSingleFlight` | app/src/main/java/com/example/yolosegmentation/LiveCameraActivity.java:259-262 | every event keeps "at most one task queued or running, and the flag set while one is" |
| `LiveCamera.RunKeepsSingleFlight` | app/src/main/java/com/example/yolosegmentation/LiveCameraActivity.java:258-264 | single flight holds after any sequence of events |
| `LiveCamera.AtMostOneInFlight` | app/src/main/java/com/example/yolosegmentation/LiveCameraActivity.java:240-264 | from the initial state, at most one task whose detector call has not returned is ever queued or running |
| `LiveCamera.BusyDropsFrames` | app/src/main/java/com/example/yolosegmentation/LiveCameraActivity.java:259 | while the flag is set, any number of analyzed frames leaves the worker and the displayed detections unchanged |
| `LiveCamera.WedgedForever` | app/src/main/java/com/example/yolosegmentation/LiveCameraActivity.java:233-264 | from that state no event ever submits or publishes again: worker, displayed detections, redraw count and caption never change |
| `LiveCamera.SuccessReopens` | app/src/main/java/com/example/yolosegmentation/LiveCameraActivity.java:240-262 | after a run returns, the next offered frame is queued |
| `ImagePicker.Init` | app/src/main/java/com/example/yolosegmentation/ImagePickerActivity.java:48 | the flag starts clear and nothing has been submitted |
| `ImagePicker.OnImage` | app/src/main/java/com/example/yolosegmentation/ImagePickerActivity.java:158-164 | with a model loaded, the task is always queued and the flag set, whatever the flag was; without a model nothing changes |
| `ImagePicker.OnActivityResult` | app/src/main/java/com/example/yolosegmentation/ImagePickerActivity.java:83-107 | nothing happens unless request code is PICK_IMAGE, result is RESULT_OK, the intent and its URI are non-null and the image decodes; then the preview size becomes the image's (width, height), the image is shown, and, if a model is loaded, the flag is set and its task with thresholds 0.4/0.5/0.5 is submitted |
| `ImagePicker.Returned` | app/src/main/java/com/example/yolosegmentation/ImagePickerActivity.java:140-151 | a run that returns clears the flag and ends the oldest task; a non-null output replaces the displayed detections wholesale and its tag summary becomes the caption |
| `ImagePicker.Threw` | app/src/main/java/com/example/yolosegmentation/ImagePickerActivity.java:152-154 | a run that throws ends its task and leaves the flag, the view, the caption, the shown image and the loaded model as they were |
| `ImagePicker.PicksRunInOrder` | app/src/main/java/com/example/yolosegmentation/ImagePickerActivity.java:158-164 | with a model loaded, the finished tasks followed by the queued ones are exactly the accepted picks in pick order: none is dropped and results come in pick order |
| `ImagePicker.PickIgnoresBusy` | app/src/main/java/com/example/yolosegmentation/ImagePickerActivity.java:159 | what a pick does to the worker does not depend on the flag |
| `ImagePicker.FailureDoesNotBlockPicks` | app/src/main/java/com/example/yolosegmentation/ImagePickerActivity.java:152-162 | after a run throws, the flag is unchanged and the next accepted pick is still queued |
| `ImagePicker.StaleGeometry` | app/src/main/java/com/example/yolosegmentation/ImagePickerActivity.java:90-150 | with two picks queued, the first run's detections are displayed against the second image's preview size |

## Left out

- Android lifecycle, permissions, CameraX binding, Toast/Log output and OpenCV loading are platform plumbing. Whether a model is loaded is a parameter of the initial state.
- The detector (`detect_task`, input tensor shape) and the bitmap/tensor conversion helpers are not part of this model; a run's outcome is an event carrying an arbitrary output list, a null list, or an exception.
- Decoding the picked image is likewise external: the pick event carries the decoded size, or nothing when decoding threw.
- LiveCamera.Returned: the end of the detector call, the clearing of the flag, the tag loop and the UI update are one event, so a task counts as in flight until its detector call returns. In the app the flag is cleared before the tag loop and the UI post run, so the analyzer can queue the next frame while the previous task's `run()` is still finishing. The same merge applies to ImagePicker.Returned.
- Threads: work posted to the UI thread is applied at the event that posts it. So the memory visibility of the non-volatile flag is not modelled, nor the UI callback reading the shared `detections` field later than the worker wrote it.
- `float`/`double` rounding, the `(float)` casts, and the `%.0f` label formatting are not modelled; a label keeps (tag, confidence·100).
- PolygonView.ComputeGeometry: infinities and NaN are one `NonFinite` value, so the model does not say which one a zero preview width produces.
- Paint set-up (stroke widths, the initial paint colours, which the style switch always overwrites before drawing) and the unused box paint (the rectangle call is commented out) are not modelled.
- Type and null errors the typed records rule out are not modelled: a non-string tag, a wrongly typed `polygons` or `box` entry, a point without `x`/`y`, a null element in the output list.
- The analyzer's rotation read and `imageProxy.close()` are not modelled. When reading plane 0 throws, the model records only that nothing is submitted.
- The picker's unused pixel copy and the unused `empty` lists are not modelled.
