# GazeTracker core, modelled in Dafny

GazeTracker is a desktop eye-tracking assistant. It reads webcam frames, finds the 478 face-mesh
landmarks of a face, and computes a normalised inter-ocular distance: the distance between the
iris centres divided by the face width. It draws the mesh over the camera picture or over a
synthetic gradient, queues the result for the window, and raises a full-screen coloured overlay
when the metric crosses a threshold.

This project models the parts of that program that hold its logic:

- the frame processor, in its current (`src/image_processor.py`) and older (`image_processor.py`) versions;
- the dotted-path settings store (`src/settings.py`) and the `WIDTHxHEIGHT` size value (`app_types.py`);
- the worker that produces results and the queue that hands them on (`src/main_model.py`);
- the overlay's show/hide state machine and appearance (`src/overlay.py`, `overlay.py`);
- the rotary knob's clamping and wheel stepping (`src/widgets/imageknobex.py`, `widgets/imageknobex.py`);
- the colour-settings window's input gate, picker lookup and saved position (`src/color_settings.py`).

Python floats are modelled as exact `real`s, and `int(x)` on a float as truncation toward zero.
Python's float `%` floors. Exceptions become `Result` values carrying the Python exception class.
Functions and callbacks from outside the program become parameters. These are: the circle fitter,
`math.hypot`, the metric formatter, the landmark detector, the camera, the screen size, the colour
picker's answer and the window loop's message pump.

Modules and their files:

| file | module | role |
|---|---|---|
| `wrappers.dfy` | `Wrappers` | `Option`, `Result`, and the Python exception classes the model raises |
| `pytext.dfy` | `PyText` | `str.split`, which keeps empty parts; `join`; clipped slicing; `lstrip` |
| `decimal.dfy` | `Decimal` | `str(n)` and `int(s)` in base 10, and their round trip |
| `hex.dfy` | `Hex` | `int(s, 16)` and `f"{n:02x}"`, and their round trips |
| `color_math.dfy` | `ColorMath` | the processor's static colour helpers, shared by both processor versions |
| `geometry.dfy` | `Geometry` | pitch normalisation, the line tables, landmark scaling, the eye metric, integer centring and re-centring |
| `canvas.dfy` | `Canvas` | what a rendered frame holds: size, background, caption, drawing |
| `image_processor.dfy` | `ImageProcessor` | the current processor |
| `legacy_image_processor.dfy` | `LegacyImageProcessor` | the older processor |
| `settings.dfy` | `SettingsStore` | the JSON settings tree |
| `main_model.dfy` | `MainModel` | the frame pipeline |
| `overlay.dfy`, `legacy_overlay.dfy` | `Overlay`, `LegacyOverlay` | the alert overlay, both versions |
| `knob.dfy`, `legacy_knob.dfy` | `Knob`, `LegacyKnob` | the knob widget, both versions |
| `color_settings.dfy` | `ColorSettings` | the colour-settings window |

Where the processor versions differ, each is modelled on its own.

- **Older processor.** Its static helpers are the same code as the current ones (for example
  `image_processor.py:11-19`, `163-184` and `212-245`), so `ColorMath` and `Geometry` model them once.
- **Older overlay.** It uses `Overlay`'s colour and opacity functions. Its window loop tests only the
  close event. Because the invariant keeps the close event set exactly when the overlay has stopped
  running, this loop ends at the same point as the newer one.

Two points about the code shape the model.

- **`start()`.** `start()` starts a new worker thread on every call, even while one is running, and
  `MainModel.MainModel.Start` counts every call.
- **Settings access.** The newer callers call `Settings.get` and `Settings.set` on the class rather than
  on the singleton instance, and `src/config.py` lacks some constants those files import, for example
  the colour-settings position key. The colours `src/config.py:93-103` does define are RGB tuples, and
  `hex_to_rgb` at `src/image_processor.py:61` would fail on a tuple with AttributeError. The model takes the processor's colours, the settings value and
  the settings key as inputs: it models the instance call those lines evidently mean. What the lines
  do as written is listed under "## Left out".

## Model

| member | source | states |
|---|---|---|
| AppTypes.Size.ToString | app_types.py:15-17 | the text splits at 'x' into exactly the decimal width and the decimal height |
| AppTypes.Size.AsString | app_types.py:19-21 | `as_string()` reads back through `from_string` as the same size |
| AppTypes.FromString | app_types.py:9-13 | a parse succeeds only when the text splits at 'x' into two parts; every failure is ValueError |
| AppTypes.RoundTrip | app_types.py:9-17 | `from_string(str(size)) == size` for every width and height |
| Decimal.IntRoundTrip | app_types.py:12-17 | `int(str(n)) == n` for every integer, negative ones included |
| Decimal.ParseInt | app_types.py:12 | `int(s)` succeeds exactly on an optional sign followed by digits; otherwise ValueError |
| Hex.ParseHex | src/image_processor.py:108 | `int(s, 16)` succeeds exactly on an optional sign followed by hex digits of either case; otherwise ValueError |
| Hex.ByteRoundTrip | src/image_processor.py:108-115 | `int(f"{n:02x}", 16) == n` for every byte |
| Hex.PairRoundTrip | src/overlay.py:271-284 | two hex digits read as a byte whose `:02x` text is the same digits in lower case |
| Hex.Format02xByte | src/overlay.py:272 | a byte is written as exactly two lower-case hex digits |
| PyText.SplitJoin | src/settings.py:46 | splitting a joined list at a separator it does not contain gives the list back |
| PyText.SplitPrefix | src/settings.py:46 | splitting `p + rest` where `p` has no separator extends the first part of `rest`'s split |
| PyText.Slice | src/image_processor.py:108 | a clipped slice is never longer than its range, and is the exact subsequence when the range fits |
| PyText.LStrip | src/image_processor.py:107 | the result is a suffix of the input, all stripped characters are the given character, and the result does not start with it |
| ColorMath.HexToRgb | src/image_processor.py:105-108 | `hex_to_rgb` either gives a triple or raises ValueError |
| ColorMath.HexToRgbOfSixDigits | src/image_processor.py:105-108 | '#' plus six hex digits gives three bytes, each the value of its digit pair |
| ColorMath.RgbToHex | src/image_processor.py:111-115 | a string starting with '#' is returned as it is; a triple becomes '#' and its digits; any other string fails |
| ColorMath.HexRoundTrip | src/image_processor.py:105-115 | `hex_to_rgb(rgb_to_hex(c)) == c` for every triple of bytes |
| ColorMath.RgbToBgr | src/image_processor.py:118-120 | reversing the result gives the input back, so the conversion is its own inverse |
| ColorMath.Trunc | src/image_processor.py:376 | `int(x)` lies within 1 of x, on the side of zero |
| ColorMath.MakeLighterRgb | src/image_processor.py:364-379 | no channel of the result exceeds 255 |
| ColorMath.MakeDarkerRgb | src/image_processor.py:382-397 | no channel of the result is negative |
| ColorMath.LighterChannelBounds | src/image_processor.py:376-378 | for a byte and a factor in [0, 1], the lightened channel lies between the channel and 255; factor 0 keeps it |
| ColorMath.DarkerChannelBounds | src/image_processor.py:394-396 | for a byte and a factor in [0, 1], the darkened channel lies between 0 and the channel; factor 0 keeps it |
| ColorMath.LightenDarkenBounds | src/image_processor.py:364-397 | lightening and darkening a byte colour give byte colours on either side of it; factor 0 keeps the colour |
| Geometry.Mod360 | src/image_processor.py:326 | Python's float `pitch % 360` lies in [0, 360) |
| Geometry.NormalizePitch | src/image_processor.py:315-336 | the normalised pitch lies in [-90, 90] |
| Geometry.PitchPeriodic | src/image_processor.py:326-336 | adding a full turn does not change the normalised pitch |
| Geometry.PitchFixesRange | src/image_processor.py:315-336 | a pitch already in [-90, 90] is returned unchanged |
| Geometry.ColumnStack | src/image_processor.py:72-75 | `np.column_stack` pairs the two columns element by element |
| Geometry.ClosedLinesShape | src/image_processor.py:72-73 | rolling by one closes the loop: pair i joins point i to point i+1 mod n, and the last pair ends where the first begins |
| Geometry.OpenLinesShape | src/image_processor.py:74-75 | `[:-1]` against `[1:]` gives the n-1 consecutive pairs |
| Geometry.EyeLineTables | src/image_processor.py:66-73 | each eye outline has 16 segments that form a closed loop through its 16 points |
| Geometry.EyebrowLineTables | src/image_processor.py:68-75 | each eyebrow has 8 segments that join its 9 points in order |
| Geometry.TablesFitMesh | src/image_processor.py:66-69 | every outline, eyebrow and iris index and both face-width landmarks lie below 478 |
| Geometry.ProcessLandmarks | src/image_processor.py:413-418 | one pixel point per landmark |
| Geometry.LandmarksInFrame | src/image_processor.py:413-418 | landmarks with coordinates in [0, 1] become pixels inside the frame. A landmark outside [0, 1] can land outside the frame. |
| Geometry.ScaledWithin | src/image_processor.py:416 | `int(t * size)` lies in [0, size] for t in [0, 1] |
| Geometry.Select | src/image_processor.py:423-424 | fancy indexing picks one point per index |
| Geometry.NormalizedEyeDistance | src/image_processor.py:431 | the metric is 0 when the face width is not positive; otherwise the metric times the face width is the eye distance, and it is never negative |
| Geometry.ProcessEyes | src/image_processor.py:420-433 | IndexError exactly when the mesh has fewer than 478 points; otherwise the centres of the fitted iris circles truncated to integers, their radii, and the metric `hypot` of the centre difference over the face width, 0 when that width is 0 |
| Geometry.Shift | src/image_processor.py:446-451 | the same offset is added to every point |
| Geometry.CenterMeshPoints | src/image_processor.py:435-453 | the mesh array is shifted in place by `int(w // 2 - mean)`; both iris centres move by the same offset; every difference between two points is kept |
| Geometry.SumShift | src/image_processor.py:440-447 | shifting n points by d adds n·d to their coordinate sums |
| Geometry.MeanShift | src/image_processor.py:440-447 | shifting moves the mean by exactly the offset |
| Geometry.CenteredMeanNearCenter | src/image_processor.py:438-447 | after centring, the mesh mean lies within one pixel of `(w // 2, h // 2)` |
| Geometry.Recenter | src/image_processor.py:472-493 | scaling about the eye midpoint and the move onto the target keep one point per mesh point |
| Geometry.RecenterLaw | src/image_processor.py:472-493 | after re-centring, the iris midpoint is exactly the target `(w/2, h/2 + h·offset)`; the iris separation and every difference between two points are multiplied by the display scale |
| Geometry.ScaledMidpoint | src/image_processor.py:482-488 | scaling two points about their midpoint keeps the midpoint and scales their difference |
| ImageProcessor.SetColorTwice | src/image_processor.py:84-98 | assigning the same colour to the same slot twice equals assigning it once |
| ImageProcessor.RefreshTwice | src/image_processor.py:77-98 | refreshing a slot again with the same colour changes nothing more |
| ImageProcessor.SetColorOnlyThatSlot | src/image_processor.py:84-98 | `update_colors` assigns only the named slot; an unknown name changes nothing; exactly the five names have slots |
| ImageProcessor.ComputeCache | src/image_processor.py:77-82 | the three cached colours exist exactly when the mesh, mesh-light and background strings parse, and they then agree with them in BGR order; otherwise ValueError |
| ImageProcessor.TrackedCacheIsComputed | src/image_processor.py:61-63 | a cache agrees with the colour strings exactly when it is the one computed from them, so `__init__` yields the only cache in step |
| ImageProcessor.RefreshSlot | src/image_processor.py:77-98 | the corrected update fails exactly when the name has a cached colour and the new string does not parse, always with ValueError |
| ImageProcessor.UpdateKeepsInStep | src/image_processor.py:77-98 | an update that reports no error, whatever its name and string, keeps a cache that agreed with the colour strings in agreement |
| ImageProcessor.KeepsInStep | src/image_processor.py:77-98 | the same agreement, stated for a cache already in agreement |
| ImageProcessor.StaleCacheAfterMeshEdit | src/image_processor.py:84-98 | as written, setting "Mesh" to any parseable colour other than the cached one leaves the cache out of agreement |
| ImageProcessor.ImageProcessor.constructor | src/image_processor.py:31-63 | the given colours, brightness increase 40, and the BGR colours cached from them, in agreement with the colour strings |
| ImageProcessor.ImageProcessor.UpdateColorsAsWritten | src/image_processor.py:84-98 | as written: only the named slot is assigned; the cache, the brightness and the display settings keep their values, and nothing is raised |
| ImageProcessor.ImageProcessor.UpdateColors | src/image_processor.py:77-98 | corrected `update_colors` (see Findings): the named slot is assigned; a cached colour is refreshed or ValueError is reported with the cache kept; success keeps cache and colours in agreement |
| ImageProcessor.ImageProcessor.UpdateBrightness | src/image_processor.py:100-102 | the brightness increase becomes `int(value)`; nothing else changes |
| ImageProcessor.PrepareFrame | src/image_processor.py:399-411 | with the camera shown, the camera picture; otherwise the gradient of the background colour in BGR at the current brightness, or ValueError when that colour does not parse |
| ImageProcessor.NoFace | src/image_processor.py:637-675 | the "No face detected" caption in mesh-dark BGR, metric 0, no mesh points, no drawing, same size; with the camera hidden, the background-dark gradient; ValueError exactly when a colour it reads does not parse |
| ImageProcessor.SegmentsOfClosed | src/image_processor.py:72-73 | the segments of a closed table join point i to point i+1 and wrap from the last point to the first |
| ImageProcessor.SegmentsOfOpen | src/image_processor.py:74-75 | the segments of an open table join each point to the next |
| ImageProcessor.TableSegments | src/image_processor.py:496-507 | 48 segments: 16 closing each eyelid contour, then 8 along each eyebrow, between the placed points |
| ImageProcessor.TableDots | src/image_processor.py:510-519 | 50 dots, on the eyelid points and then the eyebrow points, in that order |
| ImageProcessor.DrawMesh | src/image_processor.py:455-560 | the two closed eyelid contours and the two open eyebrow polylines through the placed points (scaled and moved onto the target when the camera is hidden), a dot on each of the 50 table points, and the irises at the placed centres with radii scaled only when the camera is hidden; mesh and iris colours are the cached ones |
| ImageProcessor.SegmentsJoinDots | src/image_processor.py:496-519 | both ends of every drawn segment carry a drawn dot |
| ImageProcessor.ProcessFaceMesh | src/image_processor.py:592-689 | same frame size; mesh points exactly when a face was found; no face gives the no-face path; with a face, an error exactly when the background (camera hidden) or mesh-dark colour does not parse or the mesh is shorter than 478; on success, one mesh point per landmark, the prepared background, the mesh-dark caption colour, the metric `_process_eyes` computes on the landmark mesh, and with the camera shown the landmark mesh itself |
| ImageProcessor.HiddenCameraFaceLayout | src/image_processor.py:592-635 | camera hidden and a face found: the returned mesh is the landmark mesh shifted by one offset, its mean within a pixel of the frame centre, and the drawn iris midpoint exactly on the target |
| ImageProcessor.FaceMetricGuard | src/image_processor.py:430-431 | with a face, the metric is 0 whenever landmarks 234 and 454 share a column |
| LegacyImageProcessor.LighterChannel | image_processor.py:47 | `np.minimum(base + brightness, 255)`: at most 255, and either the sum or 255 |
| LegacyImageProcessor.LighterColorBounds | image_processor.py:47 | a non-negative increase lifts every byte channel into [base, 255]; 0 keeps the colour |
| LegacyImageProcessor.CenterMesh | image_processor.py:291-299 | the mesh array is shifted in place by the centring offset, keeping every difference between two points |
| LegacyImageProcessor.WorkingMesh | image_processor.py:285-299 | the landmark mesh, shifted when the camera is hidden; an empty face raises IndexError (the column index of a one-dimensional empty array) only when it is centred |
| LegacyImageProcessor.ProcessFaceMesh | image_processor.py:248-354 | same size; IndexError exactly when a face has fewer than 478 points; no face gives metric 0, no mesh, the yellow "No face detected" caption; camera hidden gives the background gradient or, with no face, the background-dark gradient at brightness 40; camera shown gives the picture; with a face, the working mesh, the mesh-dark caption colour and the metric computed on the working mesh |
| LegacyImageProcessor.SelectShift | image_processor.py:291-303 | picking the iris points of a shifted mesh equals shifting the picked points |
| LegacyImageProcessor.HiddenCameraShiftBeforeCircles | image_processor.py:291-317 | camera hidden: the iris circles are fitted to the shifted iris points, the metric is 0 when the face-width columns coincide, and a dot is drawn on every shifted mesh point with no segments |
| SettingsStore.PyEqualsReflexive | src/settings.py:62 | every JSON value equals itself under Python's `==` |
| SettingsStore.GetValue | src/settings.py:39-50 | the value at the dotted path, or the default when any step is missing or not a dict |
| SettingsStore.LookupFails | src/settings.py:44-50 | a lookup misses exactly when some prefix of the path reaches a non-dict or lacks the next key |
| SettingsStore.LookupStep | src/settings.py:45-47 | looking up one key more is one more dict step |
| SettingsStore.AssignSucceeds | src/settings.py:66-76 | the assignment succeeds exactly when every proper prefix of the path is absent or a dict; otherwise TypeError |
| SettingsStore.AssignThenLookup | src/settings.py:66-76 | after a successful assignment the path reads back as the value |
| SettingsStore.AssignFrame | src/settings.py:66-76 | a path that is neither a prefix nor an extension of the assigned one reads as before |
| SettingsStore.AssignCreates | src/settings.py:70-73 | every proper prefix of the path is a dict after the assignment |
| SettingsStore.AssignCreatesTop | src/settings.py:70-76 | the first key is present afterwards; on an empty tree it is the only key |
| SettingsStore.SetSpec | src/settings.py:52-76 | `set` leaves the tree alone when the current value equals the new one, raises TypeError when a step hits a non-dict, and writes otherwise |
| SettingsStore.SetThenGet | src/settings.py:52-76 | after a write, `get(path)` returns the value |
| SettingsStore.SetRaises | src/settings.py:52-76 | `set` raises exactly when assigning along the path fails |
| SettingsStore.SetNoneOnMissing | src/settings.py:59-63 | setting `None` at a missing path does nothing, because `get` already returns `None` there |
| SettingsStore.SetFrame | src/settings.py:52-76 | a write leaves unrelated paths as they were |
| SettingsStore.Settings.constructor | src/settings.py:29-37 | the loaded tree, or the default tree when the file is missing |
| SettingsStore.Settings.Get | src/settings.py:39-50 | the loop returns `GetValue` of the tree |
| SettingsStore.Settings.Set | src/settings.py:52-81 | unchanged with no save when `SetSpec` says so; the written tree and one more save; or TypeError with the tree and the save count unchanged |
| SettingsStore.Settings.All | src/settings.py:83-86 | a copy with the same contents as the tree |
| SettingsStore.AssignStep | src/settings.py:70-76 | one descent step of the loop is one level of the recursive assignment |
| SettingsStore.WrapErr | src/settings.py:70-76 | rebuilding around a failure keeps the failure |
| SettingsStore.WrapPush | src/settings.py:70-73 | descending one level and rebuilding agree |
| SettingsStore.BuildSettings | src/settings.py:103-114 | the building loop computes `BuildTree` of the pairs |
| SettingsStore.BuildErrStays | src/settings.py:103-114 | once a pair fails, the whole build fails the same way |
| SettingsStore.CreateDefaultSettings | src/settings.py:88-114 | the default tree is `BuildTree` of the eight default pairs |
| SettingsStore.BuildTwoLevel | src/settings.py:103-114 | distinct two-level keys build without error, and every key reads back as its value |
| SettingsStore.DefaultsShape | src/settings.py:92-101 | every default key splits into its two parts, and the keys are distinct |
| SettingsStore.DefaultsReadBack | src/settings.py:88-114 | in the default tree, `get` of each default key returns that key's default value |
| MainModel.Flip | src/main_model.py:60-61 | flipping keeps the size and toggles the mirroring |
| MainModel.DetectorInput | src/main_model.py:59-61 | the detector sees the frame mirrored exactly when the mirror setting differs from the frame's state |
| MainModel.Produce | src/main_model.py:48-83 | an iteration queues at most one result; there is one exactly when the read returns a frame and the detector and processor succeed; it carries the iteration's threshold, frame and faces, and the processor's result for that frame and those faces |
| MainModel.ProduceAll | src/main_model.py:48-83 | a run queues no more results than it has iterations |
| MainModel.ProduceAllStamps | src/main_model.py:74-75 | every queued result carries the threshold one of the iterations read |
| MainModel.MainModel.constructor | src/main_model.py:11-24 | running, an empty queue and no thread |
| MainModel.MainModel.Start | src/main_model.py:26-31 | the run flag is set and one more thread is started |
| MainModel.MainModel.Stop | src/main_model.py:33-37 | the run flag is cleared; the queue is kept |
| MainModel.MainModel.GetNextResult | src/main_model.py:39-44 | the oldest result is removed and returned, or None on an empty queue |
| MainModel.MainModel.ProcessingIteration | src/main_model.py:49-83 | the queue grows by exactly `Produce` of the processor state |
| MainModel.MainModel.ProcessingLoop | src/main_model.py:46-83 | while running, the queue grows by exactly the results of the iterations, in order |
| Overlay.ClampOpacity | src/overlay.py:287-289 | the stored opacity lies in 0..255, equals the input inside that range, and saturates outside it |
| Overlay.ClampOpacityLaws | src/overlay.py:289 | clamping is idempotent and keeps order |
| Overlay.ParseColorHex | src/overlay.py:280-285 | the three channel slices parse or ValueError is raised; a string of at most 5 characters always fails |
| Overlay.FormatHexShape | src/overlay.py:269-272 | for byte channels the text is '#' and six lower-case hex digits |
| Overlay.ChannelRoundTrip | src/overlay.py:282-284 | each channel slice of a `#rrggbb` string reads as a byte written back as the same digits in lower case |
| Overlay.ColorHexRoundTrip | src/overlay.py:269-285 | `set_color_hex(s)` then `get_color_hex()` gives '#' and s's six digits in lower case |
| Overlay.ColorRoundTrip | src/overlay.py:269-285 | `set_color_hex(get_color_hex())` restores a colour of bytes |
| Overlay.OverlayWindow.constructor | src/overlay.py:14-43 | hidden, running, no timer, close event clear, opacity 64, red |
| Overlay.OverlayWindow.Show | src/overlay.py:232-254 | `show(True)` clears the timer and leaves the overlay wanted; `show(False)` arms the timer only when the overlay is wanted and no timer is held, and otherwise changes nothing |
| Overlay.OverlayWindow.FireHideTimer | src/overlay.py:178-180 | the fired timer leaves the overlay unwanted |
| Overlay.OverlayWindow.ReconcileStep | src/overlay.py:186-209 | the loop continues exactly while running, with the close event clear and no quit; a pass ends with visible == wanted and never arms the timer |
| Overlay.OverlayWindow.Close | src/overlay.py:256-264 | the first close clears the timer, stops the overlay and sets the close event; a later close changes nothing |
| Overlay.OverlayWindow.SetOpacity | src/overlay.py:287-289 | the opacity becomes the clamped value |
| Overlay.OverlayWindow.GetColorHex | src/overlay.py:269-272 | '#' and at least six characters; for byte channels six lower-case digits that read back as the colour |
| Overlay.OverlayWindow.SetColor | src/overlay.py:274-278 | the colour becomes the given triple |
| Overlay.OverlayWindow.SetColorHex | src/overlay.py:280-285 | a parse stores the colour; ValueError leaves it; for a valid `?rrggbb` the getter then returns '#' and the digits in lower case |
| LegacyOverlay.LegacyOverlayWindow.constructor | overlay.py:14-28 | hidden, running, no timer, opacity 64, red |
| LegacyOverlay.LegacyOverlayWindow.Show | overlay.py:166-184 | `show(True)` cancels the timer and leaves the overlay wanted; `show(False)` arms the timer only when the overlay is wanted and no timer is held |
| LegacyOverlay.LegacyOverlayWindow.FireHideTimer | overlay.py:134-136 | the fired timer leaves the overlay unwanted |
| LegacyOverlay.LegacyOverlayWindow.ReconcileStep | overlay.py:142-155 | the loop continues exactly while the close event is clear and no quit came; a pass ends with visible == wanted |
| LegacyOverlay.LegacyOverlayWindow.Close | overlay.py:186-194 | the first close clears the timer and stops the overlay; later closes change nothing |
| LegacyOverlay.LegacyOverlayWindow.SetOpacity | overlay.py:217-219 | the opacity becomes `max(0, min(255, o))` |
| LegacyOverlay.LegacyOverlayWindow.GetColorHex | overlay.py:199-202 | for byte channels, '#' and six lower-case digits that read back as the colour |
| LegacyOverlay.LegacyOverlayWindow.SetColor | overlay.py:204-208 | the colour becomes the given triple |
| LegacyOverlay.LegacyOverlayWindow.SetColorHex | overlay.py:210-215 | a parse stores the colour; ValueError leaves it; a valid `?rrggbb` reads back in lower case |
| Knob.Clamp | src/widgets/imageknobex.py:17 | `max(start, min(max, v))` lies in [start, max] when start ≤ max, equals v inside, and saturates at either bound |
| Knob.ClampLaws | src/widgets/imageknobex.py:17 | clamping is idempotent and keeps order |
| Knob.CtrlBitSamples | src/widgets/imageknobex.py:29 | the Ctrl test reads bit 2 of the state, negative states included |
| Knob.CurrentStep | src/widgets/imageknobex.py:24-32 | the precise step exactly under Ctrl; an integer event always takes the plain step |
| Knob.ScrollRequest | src/widgets/imageknobex.py:34-36 | a positive delta adds the step; any other delta subtracts it |
| Knob.ScrollLandsInRange | src/widgets/imageknobex.py:15-36 | whatever the sign of the steps, a scroll lands in [start, max] |
| Knob.ScrollStaysInRange | src/widgets/imageknobex.py:15-36 | for non-negative steps only: a scroll lands in [start, max], up at max stays at max, down at start stays at start, and it moves in the delta's direction |
| Knob.ScrollReversedByNegativeSteps | src/widgets/imageknobex.py:15-36 | for non-positive steps, the threshold knob's configuration: down at max stays at max, up at start stays at start, and a scroll moves against the delta's direction |
| Knob.ThresholdScrollUpFromMax | src/config.py:36-37 | with the configured steps -0.010 and -0.001, a scroll up from max lowers the value by one plain step |
| Knob.ImageKnobEx.constructor | src/widgets/imageknobex.py:5-13 | with a bound variable, the knob takes the clamped value of the variable and writes it back |
| Knob.ImageKnobEx.Set | src/widgets/imageknobex.py:15-20 | the clamped value is stored and written to a bound variable |
| Knob.ImageKnobEx.ScrollCommand | src/widgets/imageknobex.py:22-36 | the new value is the clamped scroll request, mirrored into a bound variable |
| LegacyKnob.LegacyScrollRequest | widgets/imageknobex.py:25-38 | the six boundary branches: below max add, at max stay, above max subtract; above start subtract, at start stay, below start add |
| LegacyKnob.LegacyAgreesInRange | widgets/imageknobex.py:25-38 | away from the bounds, a step that stays in range lands where the clamped knob's does |
| LegacyKnob.LegacyOvershootsMax | widgets/imageknobex.py:26-27 | just below max, a step larger than the gap lands above max, where the clamped knob stops at max |
| LegacyKnob.LegacyImageKnobEx.Set | widgets/imageknobex.py:3-9 | the base `set` stores the value |
| LegacyKnob.LegacyImageKnobEx.ScrollCommand | widgets/imageknobex.py:11-38 | the new value is `LegacyScrollRequest` with the precise step under Ctrl |
| ColorSettings.HexGateAcceptsFormatted | src/color_settings.py:91 | every `#rrggbb` of bytes passes the gate |
| ColorSettings.ColorRows | src/color_settings.py:26-32 | the five rows in order, each holding its name's colour |
| ColorSettings.EntryMap | src/color_settings.py:34-58 | an entry exists exactly for each row name |
| ColorSettings.ButtonMap | src/color_settings.py:64-65 | only rows whose colour passes the gate colour their button |
| ColorSettings.ButtonMapRows | src/color_settings.py:34-65 | with distinct row names, a row's button is coloured exactly when its colour passes the gate, and then with that colour |
| ColorSettings.EntryMapRows | src/color_settings.py:42-57 | each row's entry holds that row's colour |
| ColorSettings.ClampCoord | src/color_settings.py:132-133 | `max(0, min(v, limit))` is non-negative, at most the limit when the limit is non-negative, and v when v is in range |
| ColorSettings.RestorePosition | src/color_settings.py:123-136 | a position exactly when the value is a truthy string of two comma-separated parts that both parse as integers; it is then the two integers clamped to [0, w-300] and [0, h-400]; anything else sets nothing |
| ColorSettings.PositionRoundTrip | src/color_settings.py:123-142 | the saved `"x,y"` restores as the clamped position, so a position in range restores as saved |
| ColorSettings.ColorSettingsWindow.constructor | src/color_settings.py:10-85 | the restored position, one entry per colour holding it, each row's button coloured with its colour exactly when that passes the gate, brightness label 40 |
| ColorSettings.ColorSettingsWindow.UpdateButtonColor | src/color_settings.py:87-94 | the button takes the colour exactly when it passes the gate |
| ColorSettings.ColorSettingsWindow.OnColorChange | src/color_settings.py:96-105 | a gated colour reaches `update_colors` under the row's name and colours the button unless the update raises, in which case the button and the cache stay; any other text leaves the processor and the button unchanged |
| ColorSettings.ColorSettingsWindow.EditEntry | src/color_settings.py:61-62 | editing an entry stores the text and runs the gated forward, with the same outcome for the processor and the button |
| ColorSettings.ColorSettingsWindow.PickColor | src/color_settings.py:107-117 | a cancelled or empty choice changes nothing; otherwise the entry takes the colour, the processor's slot for that row takes it, and the cache is refreshed when it parses; through the entry's trace the button takes the colour exactly when it passes the gate and the update does not raise |
| ColorSettings.ColorSettingsWindow.FindRow | src/color_settings.py:114-117 | the scan stops at the first row with the given name |
| ColorSettings.ColorSettingsWindow.OnBrightnessChange | src/color_settings.py:119-121 | the label shows `int(value)`; the processor's brightness becomes `int(value)` |
| ColorSettings.ColorSettingsWindow.RestoreWindowPosition | src/color_settings.py:123-136 | the geometry is set only when the saved value parses |
| ColorSettings.ColorSettingsWindow.SaveWindowPosition | src/color_settings.py:138-142 | the saved text is `"x,y"` and splits back into the two decimal coordinates |

## Left out

- Threads, `sleep`, `join(timeout)` and the `threading.Timer` clock are not modelled. The overlay timer is a field with an explicit fire event. The window loop and the processing loop are modelled as one step, or as a run of steps with their outside inputs.
- The win32 window calls are foreign OS calls and are not modelled: class registration, painting, layered attributes, `IsWindowVisible`, `ShowWindow`. The same goes for `DestroyWindow` and its error codes.
- OpenCV and MediaPipe are foreign libraries; the model takes their results as inputs.
  - The circle fitter (`minEnclosingCircle`) is a parameter; `flip` and `cvtColor` are reduced to the mirror flag.
  - Not modelled: the line, circle and text drawing, `getTextSize`, CLAHE `enhance_image`, `adjust_gamma`, `estimate_head_pose` and `blinking_ratio`.
- `euclidean_distance_3D` is left out, and `math.hypot` is a parameter: both are floating-point square roots.
- The per-pixel float maths of `create_gradient_background` and `_create_tech_grid` is left out. The model keeps the base colour and the brightness of the gradient, plus the older version's `lighter_color`.
- Drawing details are not modelled: line thicknesses, point sizes, eye-style factors, pupil and highlight sizes, and the `show_distance` text.
- Reading and writing `settings.json`, and the `os.path` computations, are left out. The constructor takes the loaded tree, or None when the file is missing. A save is a ghost counter.
- The `Settings` singleton `__new__` is not modelled. Neither is the aliasing between the dict `all` returns and the stored nested dicts: `.copy()` is shallow.
- SettingsStore.Settings.Set: JSON values are immutable in the model, so Python's sharing of a stored dict with the caller is not captured.
- Decimal.ParseInt: does not accept the whitespace, underscores or Unicode digits that Python's `int()` also accepts. Only an optional sign followed by ASCII digits is modelled.
- Hex.ParseHex: does not accept the surrounding whitespace, underscores or `0x` prefix that `int(s, 16)` also accepts.
- NumPy's `int32` and `int64` widths are not modelled: coordinates are unbounded integers. Only frames larger than about 2^31 pixels would overflow, which no camera produces.
- Geometry.CenterMeshPoints and LegacyImageProcessor.CenterMesh: require a non-empty mesh. In the newer processor the eye step has already rejected meshes shorter than 478 points. `LegacyImageProcessor.WorkingMesh` models the older processor's empty-mesh IndexError explicitly.
- The component loader, `app_state`, `screen_state` and `config.py` at the repository root are not part of this model. The older processor reads its colour triples from that root `config.py` through `from config import *`; the model takes them to be those of `src/config.py:93-103`. It likewise takes the iris indices (`Geometry.LeftIris` and `Geometry.RightIris`) from `src/config.py:112-113`. The older processor's IndexError below 478 points rests on these indices.
- ImageProcessor.DrawMesh: states which segments, dots and iris circles are drawn, where and in which colours. The pixels and OpenCV's integer cast of each position are not modelled.
- LegacyImageProcessor.ProcessFaceMesh: the four eye-corner dots in the iris colour (`image_processor.py:326-329`) are not part of the drawing model.
- ColorSettings.ColorSettingsWindow.PickColor and FindRow: entries are keyed by row name, not by widget, so the scan in `pick_color` that maps the entry widget back to its name finds the given name itself.
- `super().__init__` of the knob is a foreign base class. Knob.ImageKnobEx.constructor takes the value it leaves as a parameter and assumes the base `set` stores its argument. The same assumption holds for `LegacyKnob`.
- The Tk widgets, labels, frames, grid layout and `askcolor` dialog of the colour-settings window are not modelled. The entries and buttons are maps from row name to text.
- `HIDE_DELAY` (0.25 s) and `refresh_delay_ms` are durations with no effect on state. Both are left out.
- The overlay's `update()` only prints, so it is left out.
- ImageProcessor.ImageProcessor.UpdateColors and everything built on it (ColorSettings.ColorSettingsWindow.OnColorChange, EditEntry, PickColor and the constructor's rows) model the corrected `update_colors` of the Findings table. As written, `update_colors` never raises. So a gated but unparsable text such as "#zzzzzz" on the Mesh, Mesh Light or Background row still colours the button, and the frames keep the stale cached colour. `UpdateColorsAsWritten` models the method as written.
- ImageProcessor.ImageProcessor.constructor: requires the three cached colours to parse. `__init__` raises ValueError otherwise (`src/image_processor.py:61-63`), and that failure path is not modelled.
- ColorSettings.ColorSettingsWindow.RestoreWindowPosition and ColorSettings.ColorSettingsWindow.SaveWindowPosition: model the instance call `Settings().get(key)` / `Settings().set(key, text)`. As written, `src/color_settings.py:125` and `:142` call them on the class. The key then binds to `self` and `path` is missing, so each raises TypeError: at `:125` before the `try`, so the window's constructor fails. Also, `COLOR_SETTINGS_WINDOW_POSITION_KEY` is not defined in `src/config.py`, so importing the module fails first. Both are left out because the model would otherwise have no position logic to state.

## Findings

| source | as written | input that shows it | evidently intended | confidence | as-written member | corrected member |
|---|---|---|---|---|---|---|
| src/image_processor.py:84-98 | `update_colors` assigns the colour string but never refreshes the BGR colours cached in `__init__`. `_update_colors` is never called. `_draw_mesh` keeps drawing with the cached colours. | Set "Mesh" to "#000000" while the cache holds the default mesh colour. | The cached colour is recomputed when "Mesh", "Mesh Light" or "Background" changes. | medium (not executed) | ImageProcessor.StaleCacheAfterMeshEdit | ImageProcessor.ImageProcessor.UpdateColors |
| widgets/imageknobex.py:25-31 | Scrolling up below max adds a whole step without clamping. The knob can pass max, and the next scroll up then moves it down. | A value of max − 0.0005 with a step of 0.001 exceeds max after one scroll up. | The knob value stays within [start, max], as the newer `set` override ensures. | medium (not executed; assumes the base `set` does not clamp) | LegacyKnob.LegacyOvershootsMax | Knob.ScrollStaysInRange |
