/** The page's camera and trigger state machine.

    `MainPage` keeps, as fields, the flags that the page's handlers update in
    place: whether the preview runs, whether a capture device and a face
    detection effect are held, the enabled state of the photo button, the
    camera toggle, the progress ring, the log line, the rectangles on the
    overlay canvas, and the messages handed to speech playback. Results of
    platform calls (a camera that opens or not, a pin level, the replies of
    the Face API) are parameters.
 */
module PiFace {
  import opened Identification
  import opened Overlay

  /** The level read from the push-button pin (active low, pulled up). */
  datatype PinValue = Low | High

  /** How an attempt to open the camera ends. The device is acquired first;
      initialising it or starting its preview can throw before the preview
      flag is set, and reading the preview's stream properties can throw
      after it. */
  datatype OpenResult = Opened | FailsBeforePreview | FailsAfterPreview

  class MainPage {
    var isPreviewing: bool
    /** `capture != null` */
    var captureHeld: bool
    /** `faceDetectionEffect != null` */
    var effectAttached: bool
    /** `faceDetectionEffect.Enabled`, together with its `FaceDetected` handler */
    var effectEnabled: bool
    /** `takePhotoBtn.IsEnabled` */
    var photoEnabled: bool
    /** `camStateToggle.IsOn` */
    var toggleOn: bool
    /** `progress.IsActive` */
    var progressActive: bool
    /** `log.Text` */
    var log: string
    /** `photoFile != null` */
    var photoFileHeld: bool
    /** The last scale factor `a` used for the overlay. */
    var scale: real
    /** `facesCanvas.Children`, in drawing order */
    var overlay: seq<Rect>
    /** Every message synthesised and played so far, in order. */
    var spoken: seq<string>

    /** A preview only runs on a held device, an effect only exists on a held
        device, and an effect is enabled exactly while it is attached. */
    ghost predicate Valid()
      reads this
    {
      && (isPreviewing ==> captureHeld)
      && (effectAttached ==> captureHeld)
      && effectEnabled == effectAttached
    }

    /** Everything a closed camera gives up. */
    ghost predicate Closed()
      reads this
    {
      !isPreviewing && !captureHeld && !effectAttached && !effectEnabled && !photoEnabled
    }

    /** A running camera with detection attached and the photo button armed. */
    ghost predicate Live()
      reads this
    {
      isPreviewing && captureHeld && effectAttached && effectEnabled && photoEnabled
    }

    /** The page as constructed: no camera opened yet. The button, toggle,
        progress ring and log start as the page layout sets them. */
    constructor (buttonEnabled: bool, toggleIsOn: bool, progressIsActive: bool, logText: string)
      ensures Valid()
      ensures !isPreviewing && !captureHeld && !effectAttached && !photoFileHeld
      ensures photoEnabled == buttonEnabled && toggleOn == toggleIsOn
      ensures progressActive == progressIsActive && log == logText
      ensures overlay == [] && spoken == []
    {
      isPreviewing := false;
      captureHeld := false;
      effectAttached := false;
      effectEnabled := false;
      photoEnabled := buttonEnabled;
      toggleOn := toggleIsOn;
      progressActive := progressIsActive;
      log := logText;
      photoFileHeld := false;
      scale := 0.0;
      overlay := [];
      spoken := [];
    }

    /** Opens the camera. The device is acquired before anything can fail.
        On success the preview starts, the button is enabled and detection
        attached. On a failure the toggle is switched off; a failure after
        the preview started leaves the preview flag set but the button and
        detection as they were. */
    method OpenCamera(result: OpenResult)
      requires Valid()
      modifies this`captureHeld, this`isPreviewing, this`photoEnabled,
               this`effectAttached, this`effectEnabled, this`toggleOn
      ensures Valid() && captureHeld
      ensures result == Opened ==> Live() && toggleOn == old(toggleOn)
      ensures result != Opened ==> && !toggleOn && photoEnabled == old(photoEnabled)
                                   && effectAttached == old(effectAttached) && effectEnabled == old(effectEnabled)
      ensures result == FailsBeforePreview ==> isPreviewing == old(isPreviewing)
      ensures result == FailsAfterPreview ==> isPreviewing
    {
      captureHeld := true;
      if result == FailsBeforePreview {
        toggleOn := false;
        return;
      }
      isPreviewing := true;
      if result == FailsAfterPreview {
        toggleOn := false;
        return;
      }
      photoEnabled := true;
      FaceDetectionInitialization();
    }

    /** Adds the face detection effect to the held device and enables it. */
    method FaceDetectionInitialization()
      requires captureHeld
      modifies this`effectAttached, this`effectEnabled
      ensures effectAttached && effectEnabled
    {
      effectAttached := true;
      effectEnabled := true;
    }

    /** Closes the camera: detaches an enabled effect and empties the overlay,
        stops a running preview, releases the device, disables the button. */
    method CloseCamera()
      requires Valid()
      modifies this`isPreviewing, this`captureHeld, this`photoEnabled,
               this`effectAttached, this`effectEnabled, this`overlay
      ensures Valid() && Closed()
      ensures overlay == if old(effectAttached && effectEnabled) then [] else old(overlay)
      ensures old(Closed()) ==> unchanged(this)
    {
      if effectAttached && effectEnabled {
        effectEnabled := false;
        effectAttached := false;
        overlay := [];
      }
      if captureHeld {
        if isPreviewing {
          isPreviewing := false;
        }
        captureHeld := false;
      }
      photoEnabled := false;
    }

    /** The camera toggle's handler, run after the user has flipped the
        toggle (so `toggleOn` is the value the user has just set): closes a
        previewing camera, opens any other. */
    method CamStateToggled(openResult: OpenResult)
      requires Valid()
      modifies this`isPreviewing, this`captureHeld, this`photoEnabled,
               this`effectAttached, this`effectEnabled, this`overlay, this`toggleOn
      ensures Valid()
      ensures old(isPreviewing) ==> && Closed() && toggleOn == old(toggleOn)
                                    && overlay == (if old(effectAttached) then [] else old(overlay))
      ensures !old(isPreviewing) ==> captureHeld && overlay == old(overlay)
      ensures !old(isPreviewing) && openResult == Opened ==> Live() && toggleOn == old(toggleOn)
      ensures !old(isPreviewing) && openResult != Opened ==>
                !toggleOn && photoEnabled == old(photoEnabled) && effectAttached == old(effectAttached)
      ensures !old(isPreviewing) ==> (isPreviewing <==> openResult != FailsBeforePreview)
    {
      if isPreviewing {
        CloseCamera();
      } else {
        OpenCamera(openResult);
      }
    }

    /** The start of a photo run: the button is disabled and the progress
        ring shown until the run ends. */
    method BeginRun()
      modifies this`photoEnabled, this`progressActive
      ensures !photoEnabled && progressActive
    {
      photoEnabled := false;
      progressActive := true;
    }

    /** The end of a photo run, whatever its outcome: the button is enabled
        again, the ring hidden, and the message spoken. */
    method FinishRun(message: string)
      modifies this`photoEnabled, this`progressActive, this`spoken
      ensures photoEnabled && !progressActive
      ensures spoken == old(spoken) + [message]
    {
      photoEnabled := true;
      progressActive := false;
      spoken := spoken + [message];
    }

    /** A whole photo run. A failed file creation keeps the previous photo
        file, so a run needs one to exist in that case (the file stream
        cannot be opened otherwise). */
    method TakePhotoClick(capture: Capture, detect: Reply<nat>, identify: Reply<seq<seq<PersonId>>>,
                          persons: nat -> Reply<string>)
      requires capture.CreateFailed? ==> photoFileHeld
      modifies this`photoEnabled, this`progressActive, this`spoken, this`log, this`photoFileHeld
      ensures photoEnabled && !progressActive && photoFileHeld
      ensures log == Run(capture, old(log), detect, identify, persons).log
      ensures spoken == old(spoken) + [Run(capture, old(log), detect, identify, persons).message]
    {
      BeginRun();
      if !capture.CreateFailed? {
        photoFileHeld := true;
      }
      var outcome := Identify(capture, log, detect, identify, persons);
      log := outcome.log;
      FinishRun(outcome.message);
    }

    /** The push-button edge handler: a run starts only when the pin reads
        low and the photo button is enabled; any other edge changes nothing. */
    method ButtonPinValueChanged(pin: PinValue, capture: Capture, detect: Reply<nat>,
                                 identify: Reply<seq<seq<PersonId>>>, persons: nat -> Reply<string>)
      returns (started: bool)
      requires pin == Low && photoEnabled && capture.CreateFailed? ==> photoFileHeld
      modifies this`photoEnabled, this`progressActive, this`spoken, this`log, this`photoFileHeld
      ensures started == (pin == Low && old(photoEnabled))
      ensures !started ==> unchanged(this)
      ensures started ==> && photoEnabled && !progressActive && photoFileHeld
                          && log == Run(capture, old(log), detect, identify, persons).log
                          && spoken == old(spoken) + [Run(capture, old(log), detect, identify, persons).message]
    {
      started := pin == Low && photoEnabled;
      if started {
        TakePhotoClick(capture, detect, identify, persons);
      }
    }

    /** Redraws the overlay for one detection event: the canvas is cleared and
        one rectangle is added per face, in the detector's order. */
    method FaceDetected(previewWidth: real, streamWidth: nat, faces: seq<FaceBox>)
      requires streamWidth > 0
      modifies this`scale, this`overlay
      ensures scale == Scale(previewWidth, streamWidth)
      ensures |overlay| == |faces|
      ensures forall i :: 0 <= i < |faces| ==> overlay[i] == Place(faces[i], scale, previewWidth)
    {
      scale := Scale(previewWidth, streamWidth);
      overlay := [];
      for i := 0 to |faces|
        invariant scale == Scale(previewWidth, streamWidth)
        invariant |overlay| == i
        invariant forall j :: 0 <= j < i ==> overlay[j] == Place(faces[j], scale, previewWidth)
      {
        overlay := overlay + [Place(faces[i], scale, previewWidth)];
      }
    }
  }

  /** While a run is in progress, a button edge starts no second run. */
  method EdgeDuringRunIsIgnored(page: MainPage, pin: PinValue, capture: Capture, detect: Reply<nat>,
                                identify: Reply<seq<seq<PersonId>>>, persons: nat -> Reply<string>)
    returns (started: bool)
    modifies page
    ensures !started && !page.photoEnabled && page.progressActive
  {
    page.BeginRun();
    started := page.ButtonPinValueChanged(pin, capture, detect, identify, persons);
  }
}
