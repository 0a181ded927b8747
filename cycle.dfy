/** One run of `main(location_id)` in HumanCount.py, together with
    `photoInferenceAndGetInferenceResults`, `faceBlur` and
    `uploadBlobToAzureAndRemoveRunsDirectoryAndLocalImage`, as a state machine
    over an abstract device. Every external call (IoT hub connection, camera,
    detector, telemetry send, client shutdown, blur binary, blob upload,
    `os.remove`, `shutil.rmtree`) is an uninterpreted outcome handed in by the
    caller; what is modelled is what the code does with each outcome. */
module Cycle {
  import opened Wrappers
  import Metadata
  import Naming
  import Detections
  import Telemetry

  /** Whether an external call returned or raised. */
  datatype Outcome = Succeeds | Raises

  /** The camera capture: it raises, or it saves `fileName` and the EXIF
      parser reads `tags` from it. */
  datatype CaptureOutcome = CaptureRaises | Captured(fileName: string, tags: Metadata.ExifTags)

  /** The outcome of every external call of one cycle. */
  datatype Environment = Environment(
    connect: Outcome,         // provisioning, client creation and connect()
    capture: CaptureOutcome,  // gphoto2 capture and copy, EXIF parse
    inference: Outcome,       // subprocess.call of the detector
    labelFiles: map<string, seq<Detections.LabelRow>>,  // label files on disk afterwards
    expFiles: set<string>,    // files under runs/detect/exp/ once the detector step is over
    send: Outcome,            // send_message of the telemetry
    shutdown: Outcome,        // device_client.shutdown()
    blur: Outcome,            // subprocess.call of the blur binary
    upload: Outcome,          // client creation and upload_blob
    remove: Outcome,          // os.remove(image_name)
    rmtree: Outcome)          // shutil.rmtree('runs/')

  /** An external call `main` attempts, with the arguments the code passes. */
  datatype Call =
    | Connect
    | Capture
    | Detect(imageName: string)
    | SendTelemetry(message: Telemetry.TelemetryMessage)
    | Shutdown
    | Blur(input: string, output: string)
    | Upload(blobName: string, localPath: string)
    | RemoveImage(path: string)
    | RemoveTree(path: string)

  /** The exception with which `main` ends, when it does not return. */
  datatype CycleError =
    | ConnectFailed | CaptureFailed | MissingDateTag | EmptyLabelFile
    | SendFailed | ShutdownFailed | BlurredImageMissing | UploadFailed

  datatype Exit = Returned | Raised(error: CycleError)

  /** The fixed directories of the code: the detector's output slot and the
      tree removed after an upload. */
  const ExpDirectory: string := "runs/detect/exp/"
  const RunsDirectory: string := "runs/"

  /** The position of each kind of call in the text of `main`. */
  function Stage(c: Call): nat
  {
    match c
    case Connect => 0
    case Capture => 1
    case Detect(_) => 2
    case SendTelemetry(_) => 3
    case Shutdown => 4
    case Blur(_, _) => 5
    case Upload(_, _) => 6
    case RemoveImage(_) => 7
    case RemoveTree(_) => 8
  }

  // ----- the reference: what one cycle does, as a function -----

  /** The files under `runs/detect/exp/` once `faceBlur` is over: the blur
      binary writes `runs/detect/exp/<alteredFilename>` only when it runs and
      finds the detector's annotated `runs/detect/exp/<imageName>`. */
  function BlurWrites(files: set<string>, imageName: string, alteredFilename: string, blur: Outcome): (r: set<string>)
    ensures files <= r <= files + {ExpDirectory + alteredFilename}
    ensures ExpDirectory + alteredFilename in r
        <==> ExpDirectory + alteredFilename in files || (blur == Succeeds && ExpDirectory + imageName in files)
  {
    if blur == Succeeds && ExpDirectory + imageName in files then files + {ExpDirectory + alteredFilename}
    else files
  }

  /** What `uploadBlobToAzureAndRemoveRunsDirectoryAndLocalImage` does;
      `present` says whether the blurred file it opens exists. */
  datatype PublishRun = PublishRun(
    calls: seq<Call>,
    exit: Exit,           // Returned exactly when the blob was written
    imageRemoved: bool,
    runsRemoved: bool)

  function Publish(alteredFilename: string, imageName: string, runsDir: string, present: bool,
                   upload: Outcome, remove: Outcome, rmtree: Outcome): (p: PublishRun)
    ensures |p.calls| >= 1 && p.calls[0] == Upload(alteredFilename, ExpDirectory + alteredFilename)
    ensures p.exit == Returned <==> present && upload != Raises
    ensures p.exit.Raised? ==> |p.calls| == 1
    ensures p.imageRemoved <==> p.exit == Returned && remove == Succeeds
    ensures p.runsRemoved <==> p.imageRemoved && rmtree == Succeeds
  {
    var uploadCall := Upload(alteredFilename, ExpDirectory + alteredFilename);
    if !present then PublishRun([uploadCall], Raised(BlurredImageMissing), false, false)
    else if upload == Raises then PublishRun([uploadCall], Raised(UploadFailed), false, false)
    else if remove == Raises then PublishRun([uploadCall, RemoveImage(imageName)], Returned, false, false)
    else PublishRun([uploadCall, RemoveImage(imageName), RemoveTree(runsDir)], Returned, true, rmtree == Succeeds)
  }

  /** The effects of one cycle. */
  datatype CycleRun = CycleRun(
    calls: seq<Call>,                             // external calls attempted, in order
    exit: Exit,
    captured: Option<string>,                     // image file written to disk
    runsWritten: bool,                            // runs/ exists after the detector step
    delivered: Option<Telemetry.TelemetryMessage>,
    uploaded: Option<string>,                     // blob written to the container
    removedImage: Option<string>,
    runsRemoved: bool,
    expFiles: Option<set<string>>)                // files under runs/detect/exp/ at the end,
                                                  // once the detector step was reached

  function Aborted(calls: seq<Call>, error: CycleError, captured: Option<string>, runsWritten: bool,
                   expFiles: Option<set<string>>): CycleRun
  {
    CycleRun(calls, Raised(error), captured, runsWritten, None, None, None, false, expFiles)
  }

  /** The reference run of `main(location_id)`. */
  function RunCycle(scriptDir: string, locationId: int, env: Environment): CycleRun
  {
    if env.connect == Raises then Aborted([Connect], ConnectFailed, None, false, None)
    else match env.capture
      case CaptureRaises => Aborted([Connect, Capture], CaptureFailed, None, false, None)
      case Captured(fileName, tags) =>
        match Metadata.ExtractMetadata(fileName, tags)
        case Failure(_) => Aborted([Connect, Capture], MissingDateTag, Some(fileName), false, None)
        case Success(metadata) =>
          var rest := AfterCapture(scriptDir, locationId, env, metadata);
          rest.(calls := [Connect, Capture] + rest.calls)
  }

  /** The rest of the run once the metadata list exists, from the detector
      on; `captured` is the image named in the metadata. */
  function AfterCapture(scriptDir: string, locationId: int, env: Environment, metadata: Metadata.ImageMetadata): CycleRun
  {
    AfterDetect(locationId, env, metadata, Detections.DetectionCounts(scriptDir, metadata.fileName, env.labelFiles))
  }

  /** The same, given what reading the label file gave. */
  function AfterDetect(locationId: int, env: Environment, metadata: Metadata.ImageMetadata,
                       counts: Result<seq<nat>, Detections.ReadError>): CycleRun
  {
    var imageName := metadata.fileName;
    var ran := env.inference == Succeeds || env.expFiles != {};
    if counts.Failure? || |counts.value| != 2 then
      Aborted([Detect(imageName)], EmptyLabelFile, Some(imageName), ran, Some(env.expFiles))
    else
      var msg := Telemetry.BuildTelemetry(locationId, metadata, counts.value[0], counts.value[1]);
      var r := Report(env, imageName, msg, env.expFiles);
      CycleRun(
        [Detect(imageName)] + r.calls, r.exit, Some(imageName), ran, r.delivered, r.uploaded,
        if r.imageRemoved then Some(imageName) else None, r.runsRemoved, Some(r.expFiles))
  }

  /** Appending the connect and the capture one at a time, then the rest. */
  lemma AppendTwoCalls(before: seq<Call>, first: Call, second: Call, rest: seq<Call>)
    ensures before + [first] + [second] + rest == before + ([first, second] + rest)
  {
  }

  /** Appending calls one stage at a time gives the run's whole sequence. */
  lemma AppendCalls(before: seq<Call>, first: seq<Call>, rest: seq<Call>)
    ensures (before + first) + rest == before + (first + rest)
  {
  }

  /** The end of a cycle, from the telemetry send on. */
  datatype ReportRun = ReportRun(
    calls: seq<Call>,
    exit: Exit,
    delivered: Option<Telemetry.TelemetryMessage>,
    uploaded: Option<string>,
    imageRemoved: bool,
    runsRemoved: bool,
    expFiles: set<string>)

  /** Send, shutdown, blur, upload and cleanup, once the message is built,
      with `files` under `runs/detect/exp/` when the send starts. */
  function Report(env: Environment, imageName: string, msg: Telemetry.TelemetryMessage, files: set<string>): (r: ReportRun)
    ensures r.delivered.Some? <==> env.send != Raises
    ensures r.delivered.Some? ==> r.delivered.value == msg
    ensures r.exit == Returned <==> r.uploaded.Some?
    ensures r.uploaded.Some? ==> r.uploaded.value == msg.fileName && env.shutdown == Succeeds
    ensures r.imageRemoved ==> r.uploaded.Some?
  {
    if env.send == Raises then ReportRun([SendTelemetry(msg)], Raised(SendFailed), None, None, false, false, files)
    else if env.shutdown == Raises then
      ReportRun([SendTelemetry(msg), Shutdown], Raised(ShutdownFailed), Some(msg), None, false, false, files)
    else
      var blurCall := Blur(ExpDirectory + imageName, ExpDirectory + msg.fileName);
      var blurred := BlurWrites(files, imageName, msg.fileName, env.blur);
      var p := Publish(msg.fileName, imageName, RunsDirectory, ExpDirectory + msg.fileName in blurred,
                       env.upload, env.remove, env.rmtree);
      ReportRun(
        [SendTelemetry(msg), Shutdown, blurCall] + p.calls,
        p.exit,
        Some(msg),
        if p.exit == Returned then Some(msg.fileName) else None,
        p.imageRemoved,
        p.runsRemoved,
        if p.runsRemoved then {} else blurred)
  }

  // ----- the device, updated in place by main -----

  class Device {
    /** `os.path.dirname(__file__)`, also the working directory. */
    const scriptDir: string
    /** Image files in the working directory. */
    var images: set<string>
    /** Whether the `runs/` tree exists. */
    var runsPresent: bool
    /** The files under `runs/detect/exp/`. */
    var expFiles: set<string>
    /** Blob names written to the container, in order. */
    var container: seq<string>
    /** Telemetry messages delivered to the hub, in order. */
    var messages: seq<Telemetry.TelemetryMessage>
    /** The external calls attempted so far, in order. */
    var calls: seq<Call>

    /** Files under `runs/detect/exp/` exist only inside an existing `runs/`. */
    predicate Valid()
      reads this
    {
      expFiles != {} ==> runsPresent
    }

    constructor (scriptDir: string)
      ensures this.scriptDir == scriptDir
      ensures Valid()
      ensures images == {} && !runsPresent && expFiles == {} && container == [] && messages == [] && calls == []
    {
      this.scriptDir := scriptDir;
      images, runsPresent, expFiles, container, messages, calls := {}, false, {}, [], [], [];
    }

    /** `captureImageAndExtractMetadata()`: the image is saved before its tags
        are read, so a missing date tag leaves the image on disk. */
    method CaptureImageAndExtractMetadata(capture: CaptureOutcome)
      returns (r: Result<Metadata.ImageMetadata, CycleError>)
      requires Valid()
      modifies this`calls, this`images
      ensures Valid()
      ensures calls == old(calls) + [Capture]
      ensures images == old(images) + (if capture.Captured? then {capture.fileName} else {})
      ensures capture.CaptureRaises? ==> r == Failure(CaptureFailed)
      ensures capture.Captured? ==> r == match Metadata.ExtractMetadata(capture.fileName, capture.tags)
                                          case Success(m) => Success(m)
                                          case Failure(_) => Failure(MissingDateTag)
    {
      calls := calls + [Capture];
      if capture.CaptureRaises? {
        return Failure(CaptureFailed);
      }
      images := images + {capture.fileName};
      var metadata := Metadata.ExtractMetadata(capture.fileName, capture.tags);
      if metadata.Failure? {
        return Failure(MissingDateTag);
      }
      r := Success(metadata.value);
    }

    /** `photoInferenceAndGetInferenceResults(image_name)`: a detector that
        raises is logged and the label file is read all the same. What lies
        under `runs/detect/exp/` afterwards (`labelFiles`, `exp`) is given;
        `runs/` exists once the detector ran or anything lies under it. */
    method PhotoInferenceAndGetInferenceResults(imageName: string, inference: Outcome,
                                                labelFiles: map<string, seq<Detections.LabelRow>>,
                                                exp: set<string>)
      returns (r: Result<seq<nat>, Detections.ReadError>)
      requires Valid()
      modifies this`calls, this`runsPresent, this`expFiles
      ensures Valid()
      ensures calls == old(calls) + [Detect(imageName)]
      ensures runsPresent == (old(runsPresent) || inference == Succeeds || exp != {})
      ensures expFiles == exp
      ensures r == Detections.DetectionCounts(scriptDir, imageName, labelFiles)
    {
      calls := calls + [Detect(imageName)];
      if inference == Succeeds || exp != {} {
        runsPresent := true;
      }
      expFiles := exp;
      r := Detections.DetectionCounts(scriptDir, imageName, labelFiles);
    }

    /** `send_telemetry()` and `send_telemetry_from_nano`: a send that raises propagates. */
    method SendTelemetryFromNano(msg: Telemetry.TelemetryMessage, send: Outcome) returns (sent: bool)
      requires Valid()
      modifies this`calls, this`messages
      ensures Valid()
      ensures sent == (send == Succeeds)
      ensures calls == old(calls) + [SendTelemetry(msg)]
      ensures messages == old(messages) + (if sent then [msg] else [])
    {
      calls := calls + [SendTelemetry(msg)];
      sent := send == Succeeds;
      if sent {
        messages := messages + [msg];
      }
    }

    /** `faceBlur(image_name, altered_filename)`: an exception is logged and
        not raised; the blurred file exists only if the binary ran on the
        detector's annotated image. */
    method FaceBlur(imageName: string, alteredFilename: string, blur: Outcome)
      requires Valid()
      modifies this`calls, this`expFiles
      ensures Valid()
      ensures calls == old(calls) + [Blur(ExpDirectory + imageName, ExpDirectory + alteredFilename)]
      ensures expFiles == BlurWrites(old(expFiles), imageName, alteredFilename, blur)
    {
      calls := calls + [Blur(ExpDirectory + imageName, ExpDirectory + alteredFilename)];
      if blur == Raises {
        return;  // logged by logging.exception
      }
      if ExpDirectory + imageName in expFiles {
        expFiles := expFiles + {ExpDirectory + alteredFilename};
      }
    }

    /** `uploadBlobToAzureAndRemoveRunsDirectoryAndLocalImage`: opening a
        blurred file that does not exist, or an upload that raises, propagates
        before any removal; both removals share one `try`, so a failing
        `os.remove` skips `rmtree`, and either failure is logged, not raised. */
    method UploadBlobAndRemoveRunsDirectoryAndLocalImage(
      alteredFilename: string, imageName: string, runsDir: string,
      upload: Outcome, remove: Outcome, rmtree: Outcome)
      returns (exit: Exit)
      requires Valid()
      modifies this`calls, this`container, this`images, this`runsPresent, this`expFiles
      ensures Valid()
      ensures var p := Publish(alteredFilename, imageName, runsDir, ExpDirectory + alteredFilename in old(expFiles),
                               upload, remove, rmtree);
        && exit == p.exit
        && calls == old(calls) + p.calls
        && container == old(container) + (if p.exit == Returned then [alteredFilename] else [])
        && images == (if p.imageRemoved then old(images) - {imageName} else old(images))
        && runsPresent == (old(runsPresent) && !p.runsRemoved)
        && expFiles == (if p.runsRemoved then {} else old(expFiles))
    {
      calls := calls + [Upload(alteredFilename, ExpDirectory + alteredFilename)];
      if ExpDirectory + alteredFilename !in expFiles {
        return Raised(BlurredImageMissing);  // FileNotFoundError from open()
      }
      if upload == Raises {
        return Raised(UploadFailed);
      }
      container := container + [alteredFilename];
      exit := Returned;
      calls := calls + [RemoveImage(imageName)];
      if remove == Raises {
        return;  // logged
      }
      images := images - {imageName};
      calls := calls + [RemoveTree(runsDir)];
      if rmtree == Raises {
        return;  // logged
      }
      runsPresent := false;
      expFiles := {};
    }

    /** `main(location_id)`, proved to follow `RunCycle`. */
    method Run(locationId: int, env: Environment) returns (exit: Exit)
      requires Valid()
      modifies this`calls, this`images, this`runsPresent, this`expFiles, this`container, this`messages
      ensures Valid()
      ensures var run := RunCycle(scriptDir, locationId, env);
        && exit == run.exit
        && calls == old(calls) + run.calls
        && images == (old(images) + OptionToSet(run.captured)) - OptionToSet(run.removedImage)
        && runsPresent == ((old(runsPresent) || run.runsWritten) && !run.runsRemoved)
        && expFiles == (if run.expFiles.Some? then run.expFiles.value else old(expFiles))
        && messages == old(messages) + OptionToSeq(run.delivered)
        && container == old(container) + OptionToSeq(run.uploaded)
    {
      calls := calls + [Connect];
      if env.connect == Raises {
        return Raised(ConnectFailed);
      }

      var metadata := CaptureImageAndExtractMetadata(env.capture);
      if metadata.Failure? {
        return Raised(metadata.error);
      }
      ghost var rest := AfterCapture(scriptDir, locationId, env, metadata.value);
      exit := ProcessCapture(locationId, metadata.value, env);
      AppendTwoCalls(old(calls), Connect, Capture, rest.calls);
    }

    /** `main` from the metadata list on: timestamp and file name, inference,
        message, then the end of the cycle. */
    method ProcessCapture(locationId: int, metadata: Metadata.ImageMetadata, env: Environment)
      returns (exit: Exit)
      requires Valid()
      modifies this`calls, this`images, this`runsPresent, this`expFiles, this`container, this`messages
      ensures Valid()
      ensures var rest := AfterCapture(scriptDir, locationId, env, metadata);
        && exit == rest.exit
        && calls == old(calls) + rest.calls
        && images == old(images) - OptionToSet(rest.removedImage)
        && runsPresent == ((old(runsPresent) || rest.runsWritten) && !rest.runsRemoved)
        && rest.expFiles.Some? && expFiles == rest.expFiles.value
        && messages == old(messages) + OptionToSeq(rest.delivered)
        && container == old(container) + OptionToSeq(rest.uploaded)
    {
      var imageName := metadata.fileName;
      var datetimeStr := metadata.dateTime;

      var timestamp := Naming.RemoveAll(datetimeStr, ':');
      timestamp := Naming.ReplaceAll(timestamp, ' ', '_');

      var inferenceResults := PhotoInferenceAndGetInferenceResults(imageName, env.inference, env.labelFiles, env.expFiles);
      if inferenceResults.Failure? {
        return Raised(EmptyLabelFile);
      }
      var numberOfPersons := inferenceResults.value[0];
      var numberOfChairs := inferenceResults.value[1];

      var alteredFilename := Naming.BlobName(locationId, timestamp);

      var msg := Telemetry.TelemetryMessage(
        alteredFilename, locationId as real, numberOfPersons, numberOfChairs, datetimeStr,
        metadata.latitude, metadata.longitude, Telemetry.TruncateTowardZero(metadata.altitude));
      assert msg == Telemetry.BuildTelemetry(locationId, metadata, numberOfPersons, numberOfChairs);
      ghost var r := Report(env, imageName, msg, env.expFiles);
      assert AfterCapture(scriptDir, locationId, env, metadata) == CycleRun(
        [Detect(imageName)] + r.calls, r.exit, Some(imageName), env.inference == Succeeds || env.expFiles != {},
        r.delivered, r.uploaded, if r.imageRemoved then Some(imageName) else None, r.runsRemoved, Some(r.expFiles));
      exit := ReportAndPublish(imageName, msg, env);
      AppendCalls(old(calls), [Detect(imageName)], r.calls);
    }

    /** The end of `main`: `await send_telemetry()`, `await
        device_client.shutdown()`, `faceBlur(...)` and the upload, each
        raising exception propagating except the blur's. */
    method ReportAndPublish(imageName: string, msg: Telemetry.TelemetryMessage, env: Environment)
      returns (exit: Exit)
      requires Valid()
      modifies this`calls, this`images, this`runsPresent, this`expFiles, this`container, this`messages
      ensures Valid()
      ensures var r := Report(env, imageName, msg, old(expFiles));
        && exit == r.exit
        && calls == old(calls) + r.calls
        && images == (if r.imageRemoved then old(images) - {imageName} else old(images))
        && runsPresent == (old(runsPresent) && !r.runsRemoved)
        && expFiles == r.expFiles
        && messages == old(messages) + OptionToSeq(r.delivered)
        && container == old(container) + OptionToSeq(r.uploaded)
    {
      var sent := SendTelemetryFromNano(msg, env.send);
      if !sent {
        return Raised(SendFailed);
      }
      calls := calls + [Shutdown];
      if env.shutdown == Raises {
        return Raised(ShutdownFailed);
      }

      FaceBlur(imageName, msg.fileName, env.blur);

      exit := UploadBlobAndRemoveRunsDirectoryAndLocalImage(
        msg.fileName, imageName, RunsDirectory, env.upload, env.remove, env.rmtree);
    }
  }
}
