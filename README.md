# Pi-Face: camera, trigger and identification logic

Pi-Face is a kiosk page (`MainPage`) for a camera on a Raspberry Pi. The page
shows a mirrored live preview and draws a red box over every face the local
detector finds. A photo run starts from the on-screen button or from a push
button on a GPIO pin. The run sends the current frame to the Face API, which
detects, identifies and looks up the persons. The run then speaks a message:
"Welcome {name}!", "No faces detected!", "I don't know you!" or an error text.

This project models three pieces of that page. Each platform call is
replaced by its result, given as an input.

- `Identification` (identification.dfy) holds the rule that turns the
  replies of the remote calls into the spoken message, the log text, whether
  the identify call is made, and the ordered list of person lookups. `Run`
  and `Walk` are the reference definitions. `Identify` is the step-by-step
  method with the `foreach` loop, and it is proved equal to `Run`. The lemmas
  state the rule's quirks: an unknown face aborts the loop, only the last
  welcome survives, and a `FaceAPIException` leaves the message alone.
- `Overlay` (overlay.dfy) holds the geometry of the live face boxes. It
  works over `real`, with `a = previewWidth / streamWidth` and the horizontal
  mirror.
- `PiFace` (main_page.dfy) holds class `MainPage`. Its fields are the flags
  that the handlers update in place: the preview flag, the capture device,
  the detection effect, the photo button, the toggle, the progress ring, the
  log, the overlay canvas and the spoken messages. Its methods are the
  handlers `OpenCamera`, `CloseCamera`, `CamStateToggled`,
  `ButtonPinValueChanged` and `FaceDetected`, plus the start, end and whole
  of a photo run.

Remote replies are `Reply<T>`. `Ok` carries a value. `ApiError` is a
`FaceAPIException` with its `ErrorMessage`. `Fault` is any other exception
with its `Message`. The person lookups are answered by call number:
`persons(n)` is the reply of the run's `n`-th `GetPersonAsync` call. Two
lookups of the same person are two calls, and each gets its own reply. The
camera's open result is `OpenResult`: it opens, it fails before the preview
flag is set, or it fails after. The pin level is `Low` or `High`.

Behaviour of the page worth knowing:
- An identification error from the service is not spoken. The message
  keeps its value: empty, or an earlier face's welcome. Only the log shows
  the error.
- A failed photo capture is only logged. The run goes on with whatever file
  is there.
- The button edge checks only the pin level and the photo button's
  enabled state. It does not check the camera state.
- `OpenCamera` does not check whether the preview already runs: it
  acquires a new device and starts over.
- A failed `OpenCamera` leaves a device held. `new MediaCapture()` runs
  before the initialisation that throws.
- When reading the preview's stream properties throws, the preview flag is
  already set. The toggle goes off, but the button stays as it was and no
  detection is attached.
- There is no Opening or Closing state, and no debounce logic in the page.

## Model

| member | source | states |
|---|---|---|
| `Identification.Welcome` | MainPage.xaml.cs:187 | the greeting is "Welcome " followed by the person's name and "!", nine characters longer than the name |
| `Identification.Walk` | MainPage.xaml.cs:176-188 | the loop only appends to the lookups made before it, and it makes at most one lookup per remaining identify result; the lookup for result i is the run's i-th call and gets that call's reply |
| `Identification.Identify` | MainPage.xaml.cs:140-198 | the step-by-step run (capture, detect, identify, then the loop over results with early exit) gives exactly the outcome `Run` defines |
| `Identification.WalkAllKnown` | MainPage.xaml.cs:176-188 | when every remaining result has a candidate and its lookup call succeeds, there is one lookup per result, of its first candidate, in order; message and log are the welcome of the person the last call returned, or unchanged when no result remains |
| `Identification.WalkStopsAt` | MainPage.xaml.cs:176-197 | when result k is the first that does not resolve (no candidate, or its lookup call fails), only results up to k are looked up (k itself only if it has a candidate); an empty candidate list gives "I don't know you!"; an API error keeps the message from before result k (the welcome returned by call k-1, if any) and logs the error; another exception becomes message and log |
| `Identification.NoFacesDetected` | MainPage.xaml.cs:163-173 | zero detected faces give exactly "No faces detected!" as message and log, with no identify call and no lookup |
| `Identification.UnknownFaceAborts` | MainPage.xaml.cs:176-197 | the first result without candidates sets "I don't know you!", overriding earlier welcomes, and no later result is looked up |
| `Identification.LastWelcomeWins` | MainPage.xaml.cs:176-188 | when every face is known, the message is the welcome of the person returned by the last lookup call, with exactly one lookup per result, of its first candidate, in order |
| `Identification.ApiErrorKeepsMessage` | MainPage.xaml.cs:183-193 | a `FaceAPIException` from the lookup of result k only writes the log: the message is empty for k = 0, otherwise the welcome of the person returned by lookup k-1 |
| `Identification.SamePersonLookedUpTwice` | MainPage.xaml.cs:176-190 | two faces of the same person make two lookups; when the first succeeds and the second fails with a `FaceAPIException`, the first welcome stays the message and the log shows the second lookup's error |
| `Identification.ApiErrorBeforeLookups` | MainPage.xaml.cs:163-193 | a `FaceAPIException` from detection or identification leaves the message empty, logs the service's error, and makes no lookup |
| `Overlay.Scale` | MainPage.xaml.cs:278 | the scale factor maps the stream width exactly onto the preview width |
| `Overlay.PlaceScalesAndMirrors` | MainPage.xaml.cs:285-295 | a drawn box has width w·a, height h·a, top y·a, and its right edge is previewWidth − x·a (the mirror of the box's left edge) |
| `Overlay.SourceOfPlace` | MainPage.xaml.cs:285-295 | for a positive scale, mapping a canvas rectangle back to stream units gives the detected box again |
| `Overlay.PlaceInsidePreview` | MainPage.xaml.cs:278-295 | a box inside the stream frame is drawn inside the preview's width, with non-negative top and width |
| `Overlay.PlaceReversesOrder` | MainPage.xaml.cs:287-295 | mirroring reverses left-to-right order: a box wholly left of another in the stream is drawn wholly right of it |
| `Overlay.WorkedExample` | MainPage.xaml.cs:278-295 | box (10, 20, 30, 40) in a 400-wide stream shown 800 wide is drawn at left 720, top 40, width 60, height 80 |
| `PiFace.MainPage.constructor` | MainPage.xaml.cs:55-93 | a new page holds no device, no effect and no photo file, is not previewing, and has an empty overlay |
| `PiFace.MainPage.OpenCamera` | MainPage.xaml.cs:96-129 | a device is held afterwards; success previews, enables the button and attaches enabled detection; any failure switches the toggle off and leaves button and detection as they were; the preview flag is unchanged for a failure before the preview starts and set for one after it |
| `PiFace.MainPage.FaceDetectionInitialization` | MainPage.xaml.cs:253-267 | the detection effect is attached and enabled |
| `PiFace.MainPage.CloseCamera` | MainPage.xaml.cs:217-240 | afterwards nothing previews, no device or effect is held and the button is disabled; the overlay is emptied exactly when an enabled effect was detached; from the closed state nothing changes |
| `PiFace.MainPage.CamStateToggled` | MainPage.xaml.cs:242-248 | a previewing camera is closed; otherwise it is opened, the toggle goes off only when opening fails, and the preview flag ends set unless opening failed before the preview started |
| `PiFace.MainPage.BeginRun` | MainPage.xaml.cs:136-140 | while a run is in progress the button is disabled and the progress ring active |
| `PiFace.MainPage.FinishRun` | MainPage.xaml.cs:199-211 | every run ends with the button enabled and the ring inactive, and its message appended to what was spoken |
| `PiFace.MainPage.TakePhotoClick` | MainPage.xaml.cs:132-213 | whatever the replies, the run re-arms the button, stops the ring, writes the log `Run` gives, and speaks exactly `Run`'s message |
| `PiFace.MainPage.ButtonPinValueChanged` | MainPage.xaml.cs:301-318 | a run starts exactly when the pin reads Low and the photo button is enabled, and then ends as a whole photo run does (button re-armed, ring stopped, a photo file held, `Run`'s log and message); any other edge changes nothing |
| `PiFace.MainPage.FaceDetected` | MainPage.xaml.cs:270-298 | after a detection event the overlay holds exactly one rectangle per detected face, in order, placed by `Place` with the new scale; earlier rectangles are gone |
| `PiFace.EdgeDuringRunIsIgnored` | MainPage.xaml.cs:301-311 | a button edge that arrives while a run is in progress starts no second run |

## Left out

- Camera, file, Face API, speech and playback calls: these are platform and cloud libraries. Only their results are modelled, as parameters.
- The Face API's wire format, the group id and the subscription key: these are configuration only.
- The suspend and resume handlers, the `capture.Failed` callback, and the dispatcher hand-offs: their point is asynchronous interleaving. Each handler here runs to completion. The model does not show a close that lands in the middle of a photo run, or a stale overlay draw after a close.
- The re-entrant `Toggled` event: setting the toggle's `IsOn` from code may raise the event again. That is platform behaviour the page does not show.
- GPIO pin opening, drive mode, and the 50 ms debounce timeout: the driver does the debouncing, so there is no page logic to model. GPIO being absent only means the handler is never registered.
- `PiFace.MainPage.CloseCamera` assumes that `ClearEffectsAsync` (MainPage.xaml.cs:223) and `StopPreviewAsync` (MainPage.xaml.cs:232) succeed. They are awaited unguarded in `async void` code, so a throw would end the close partway. The effect would stay attached but disabled, and the overlay, preview flag, device and button would stay as they were. A close after a failed re-open on a device that never initialised is one such case. The model does not show it.
- Failures inside `faceDetectionInitialization` and of the speech step in the `finally` block: they are unhandled in `async void` code. The model assumes they succeed.
- A crash when the photo stream cannot be opened (file creation failed and no earlier photo file exists), or when the open itself throws outside the `try`: `PiFace.MainPage.TakePhotoClick` requires an existing photo file when creation fails, and the open is taken to succeed.
- The leak when `OpenCamera` replaces a held device it has not disposed: the device is modelled as a flag.
- `PiFace.MainPage.FaceDetected` and `Overlay.Scale` require a stream width above zero. A zero width would divide by zero, and a preview width the layout left unset would be NaN.
- Floating-point rounding of the overlay arithmetic: it is modelled with `real`.
- The detection interval (33 ms) and the rectangle stroke style: these are presentation settings.
