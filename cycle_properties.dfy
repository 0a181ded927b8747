/** What the code of `main(location_id)` guarantees about one cycle, stated
    over the reference run `Cycle.RunCycle`: the order of the external calls,
    which failures end the cycle and which are only logged, what is uploaded
    and what is left on disk. */
module CycleProperties {
  import opened Wrappers
  import opened Cycle
  import Metadata
  import Naming
  import Detections
  import Telemetry
  import LabelPaths

  // ----- the calls follow the text of main -----

  /** Every call comes from a later line of `main` than the calls before it. */
  predicate InMainOrder(calls: seq<Call>)
  {
    forall i, j :: 0 <= i < j < |calls| ==> Stage(calls[i]) < Stage(calls[j])
  }

  /** Every call of `calls` comes from line `stage` of `main` or later. */
  predicate FromStage(calls: seq<Call>, stage: nat)
  {
    forall i :: 0 <= i < |calls| ==> stage <= Stage(calls[i])
  }

  lemma {:induction false} InMainOrderPrepend(c: Call, rest: seq<Call>)
    requires InMainOrder(rest) && FromStage(rest, Stage(c) + 1)
    ensures InMainOrder([c] + rest) && FromStage([c] + rest, Stage(c))
  {
    var s := [c] + rest;
    forall i, j | 0 <= i < j < |s|
      ensures Stage(s[i]) < Stage(s[j])
    {
      assert s[j] == rest[j - 1];
      if i > 0 {
        assert s[i] == rest[i - 1];
      }
    }
    forall i | 0 <= i < |s|
      ensures Stage(c) <= Stage(s[i])
    {
      if i > 0 {
        assert s[i] == rest[i - 1];
      }
    }
  }

  lemma PairThenRest(first: Call, second: Call, rest: seq<Call>)
    ensures [first, second] + rest == [first] + ([second] + rest)
  {
  }

  lemma PublishInOrder(alteredFilename: string, imageName: string, runsDir: string, present: bool,
                       upload: Outcome, remove: Outcome, rmtree: Outcome)
    ensures var p := Publish(alteredFilename, imageName, runsDir, present, upload, remove, rmtree);
      InMainOrder(p.calls) && FromStage(p.calls, 6) && |p.calls| >= 1
  {
  }

  lemma ReportInOrder(env: Environment, imageName: string, msg: Telemetry.TelemetryMessage, files: set<string>)
    ensures InMainOrder(Report(env, imageName, msg, files).calls)
    ensures FromStage(Report(env, imageName, msg, files).calls, 3)
    ensures |Report(env, imageName, msg, files).calls| >= 1
  {
    var r := Report(env, imageName, msg, files);
    if env.send == Raises {
    } else if env.shutdown == Raises {
      InMainOrderPrepend(Shutdown, []);
      InMainOrderPrepend(SendTelemetry(msg), [Shutdown]);
      assert r.calls == [SendTelemetry(msg)] + [Shutdown];
    } else {
      var blurCall := Blur(ExpDirectory + imageName, ExpDirectory + msg.fileName);
      var present := ExpDirectory + msg.fileName in BlurWrites(files, imageName, msg.fileName, env.blur);
      var p := Publish(msg.fileName, imageName, RunsDirectory, present, env.upload, env.remove, env.rmtree);
      PublishInOrder(msg.fileName, imageName, RunsDirectory, present, env.upload, env.remove, env.rmtree);
      InMainOrderPrepend(blurCall, p.calls);
      InMainOrderPrepend(Shutdown, [blurCall] + p.calls);
      InMainOrderPrepend(SendTelemetry(msg), [Shutdown] + ([blurCall] + p.calls));
      assert r.calls == [SendTelemetry(msg)] + ([Shutdown] + ([blurCall] + p.calls));
    }
  }

  lemma AfterDetectInOrder(locationId: int, env: Environment, metadata: Metadata.ImageMetadata,
                           counts: Result<seq<nat>, Detections.ReadError>)
    ensures var rest := AfterDetect(locationId, env, metadata, counts);
      InMainOrder(rest.calls) && FromStage(rest.calls, 2)
  {
    var imageName := metadata.fileName;
    if counts.Failure? || |counts.value| != 2 {
      InMainOrderPrepend(Detect(imageName), []);
      assert AfterDetect(locationId, env, metadata, counts).calls == [Detect(imageName)] + [];
    } else {
      var msg := Telemetry.BuildTelemetry(locationId, metadata, counts.value[0], counts.value[1]);
      ReportInOrder(env, imageName, msg, env.expFiles);
      InMainOrderPrepend(Detect(imageName), Report(env, imageName, msg, env.expFiles).calls);
    }
  }

  /** The cycle starts with the connection, and its calls happen in the
      order of the lines of `main` that make them, each at most once. */
  lemma CallsFollowMainOrder(scriptDir: string, locationId: int, env: Environment)
    ensures var run := RunCycle(scriptDir, locationId, env);
      |run.calls| >= 1 && run.calls[0] == Connect && InMainOrder(run.calls)
  {
    var run := RunCycle(scriptDir, locationId, env);
    InMainOrderPrepend(Capture, []);
    InMainOrderPrepend(Connect, [Capture]);
    if env.connect == Succeeds && env.capture.Captured? {
      var metadata := Metadata.ExtractMetadata(env.capture.fileName, env.capture.tags);
      if metadata.Success? {
        var rest := AfterCapture(scriptDir, locationId, env, metadata.value);
        AfterDetectInOrder(locationId, env, metadata.value,
          Detections.DetectionCounts(scriptDir, metadata.value.fileName, env.labelFiles));
        InMainOrderPrepend(Capture, rest.calls);
        InMainOrderPrepend(Connect, [Capture] + rest.calls);
        PairThenRest(Connect, Capture, rest.calls);
      } else {
        assert run.calls == [Connect] + [Capture];
      }
    } else if env.connect == Succeeds {
      assert run.calls == [Connect] + [Capture];
    }
  }

  /** Every call of `calls` comes from line `stage` of `main` or earlier. */
  predicate UpToStage(calls: seq<Call>, stage: nat)
  {
    forall i :: 0 <= i < |calls| ==> Stage(calls[i]) <= stage
  }

  // ----- the cycle once the capture is in hand, and before -----

  /** The connection and the capture succeed and the image has both date tags. */
  predicate ReachesDetector(env: Environment)
  {
    && env.connect == Succeeds
    && env.capture.Captured?
    && env.capture.tags.datetimeOriginal.Some?
    && env.capture.tags.offsetTime.Some?
  }

  /** Past the metadata, the cycle is the connection and the capture
      followed by the rest of the run. */
  lemma RunCycleReachesDetector(scriptDir: string, locationId: int, env: Environment)
    requires ReachesDetector(env)
    ensures var metadata := Metadata.ExtractMetadata(env.capture.fileName, env.capture.tags);
      && metadata.Success? && metadata.value.fileName == env.capture.fileName
      && var rest := AfterDetect(locationId, env, metadata.value,
                                 Detections.DetectionCounts(scriptDir, env.capture.fileName, env.labelFiles));
         RunCycle(scriptDir, locationId, env) == rest.(calls := [Connect] + ([Capture] + rest.calls))
  {
    var metadata := Metadata.ExtractMetadata(env.capture.fileName, env.capture.tags);
    var rest := AfterCapture(scriptDir, locationId, env, metadata.value);
    PairThenRest(Connect, Capture, rest.calls);
  }

  /** Short of that, the cycle raises after at most the connection and the
      capture, with nothing sent, uploaded or removed. */
  lemma RunCycleStopsBeforeDetector(scriptDir: string, locationId: int, env: Environment)
    requires !ReachesDetector(env)
    ensures var run := RunCycle(scriptDir, locationId, env);
      && run.exit.Raised? && !run.runsWritten
      && run.delivered == None && run.uploaded == None && run.removedImage == None && !run.runsRemoved
      && (run.calls == [Connect] || run.calls == [Connect, Capture])
  {
  }

  /** Every call of `[Connect, Capture] + rest` comes from line `stage` or
      earlier when those of `rest` do. */
  lemma UpToStagePrefixed(rest: seq<Call>, stage: nat)
    requires UpToStage(rest, stage) && Stage(Capture) <= stage
    ensures UpToStage([Connect] + ([Capture] + rest), stage)
  {
    var s := [Connect] + ([Capture] + rest);
    forall i | 0 <= i < |s|
      ensures Stage(s[i]) <= stage
    {
      if i >= 2 {
        assert s[i] == rest[i - 2];
      }
    }
  }

  // ----- which failures end the cycle -----

  /** The blurred file `runs/detect/exp/<name>` exists once `faceBlur` is
      over: left by an earlier cycle, or written by a blur that ran on the
      detector's annotated image. */
  predicate BlurredImagePresent(env: Environment, imageName: string, name: string)
  {
    ExpDirectory + name in BlurWrites(env.expFiles, imageName, name, env.blur)
  }

  /** Everything `main` needs to reach the end of the upload. */
  predicate Completes(scriptDir: string, locationId: int, env: Environment)
  {
    && ReachesDetector(env)
    && Detections.DetectionCounts(scriptDir, env.capture.fileName, env.labelFiles).Success?
    && env.send == Succeeds
    && env.shutdown == Succeeds
    && BlurredImagePresent(env, env.capture.fileName,
         Naming.DeriveBlobName(locationId, env.capture.tags.datetimeOriginal.value + env.capture.tags.offsetTime.value))
    && env.upload == Succeeds
  }

  lemma ReturnsAfterDetect(locationId: int, env: Environment, metadata: Metadata.ImageMetadata,
                           counts: Result<seq<nat>, Detections.ReadError>)
    requires counts.Success? ==> |counts.value| == 2
    ensures var rest := AfterDetect(locationId, env, metadata, counts);
      && (rest.exit == Returned <==>
            && counts.Success? && env.send == Succeeds && env.shutdown == Succeeds
            && BlurredImagePresent(env, metadata.fileName, Naming.DeriveBlobName(locationId, metadata.dateTime))
            && env.upload == Succeeds)
      && (rest.exit == Returned <==> rest.uploaded.Some?)
  {
  }

  /** `main` returns exactly when the connection, the capture, both date
      tags, the label file, the send, the shutdown, the blurred file and the
      upload all do their part, and it returns exactly when the blob was
      written: the detector's and the blur's own exceptions and both removals
      are never the reason it raises. */
  lemma ReturnsExactlyWhenUploaded(scriptDir: string, locationId: int, env: Environment)
    ensures var run := RunCycle(scriptDir, locationId, env);
      && (run.exit == Returned <==> Completes(scriptDir, locationId, env))
      && (run.exit == Returned <==> run.uploaded.Some?)
  {
    if ReachesDetector(env) {
      RunCycleReachesDetector(scriptDir, locationId, env);
      var metadata := Metadata.ExtractMetadata(env.capture.fileName, env.capture.tags);
      Metadata.DateTimeIsConcatenation(env.capture.fileName, env.capture.tags);
      ReturnsAfterDetect(locationId, env, metadata.value,
        Detections.DetectionCounts(scriptDir, env.capture.fileName, env.labelFiles));
    } else {
      RunCycleStopsBeforeDetector(scriptDir, locationId, env);
    }
  }

  /** An exception from connecting ends the cycle before the camera is used. */
  lemma ConnectFailureTouchesNothing(scriptDir: string, locationId: int, env: Environment)
    requires env.connect == Raises
    ensures RunCycle(scriptDir, locationId, env) == Aborted([Connect], ConnectFailed, None, false, None)
  {
  }

  /** A capture that raises ends the cycle before the detector and the
      telemetry; nothing is written to disk. */
  lemma CaptureFailureAbortsBeforeTelemetry(scriptDir: string, locationId: int, env: Environment)
    requires env.connect == Succeeds && env.capture.CaptureRaises?
    ensures var run := RunCycle(scriptDir, locationId, env);
      && run.exit == Raised(CaptureFailed)
      && run.calls == [Connect, Capture]
      && run.captured == None && !run.runsWritten
      && run.delivered == None && run.uploaded == None
  {
  }

  /** The image is saved before its tags are read, so a missing date tag
      raises with the image left in the working directory. */
  lemma MissingDateTagLeavesImage(scriptDir: string, locationId: int, env: Environment)
    requires env.connect == Succeeds && env.capture.Captured?
    requires env.capture.tags.datetimeOriginal.None? || env.capture.tags.offsetTime.None?
    ensures var run := RunCycle(scriptDir, locationId, env);
      && run.exit == Raised(MissingDateTag)
      && run.calls == [Connect, Capture]
      && run.captured == Some(env.capture.fileName)
      && run.removedImage == None
      && run.delivered == None && run.uploaded == None
  {
  }

  /** An empty label file raises after the detector, before any telemetry. */
  lemma EmptyLabelFileAbortsAfterDetect(scriptDir: string, locationId: int, env: Environment)
    requires ReachesDetector(env)
    requires Detections.LabelFileAt(env.labelFiles, LabelPaths.LabelsFilePath(scriptDir, env.capture.fileName))
               == Detections.Found([])
    ensures var run := RunCycle(scriptDir, locationId, env);
      && run.exit == Raised(EmptyLabelFile)
      && run.calls == [Connect, Capture, Detect(env.capture.fileName)]
      && run.delivered == None && run.uploaded == None && run.removedImage == None
  {
    RunCycleReachesDetector(scriptDir, locationId, env);
    var rest := AfterDetect(locationId, env, Metadata.ExtractMetadata(env.capture.fileName, env.capture.tags).value,
                            Failure(Detections.EmptyLabelFile));
    assert [Connect] + ([Capture] + rest.calls) == [Connect, Capture, Detect(env.capture.fileName)];
  }

  lemma SendFailureAfterDetect(locationId: int, env: Environment, metadata: Metadata.ImageMetadata,
                               counts: Result<seq<nat>, Detections.ReadError>)
    requires env.send == Raises
    ensures var rest := AfterDetect(locationId, env, metadata, counts);
      && rest.exit != Returned
      && rest.delivered == None && rest.uploaded == None && rest.removedImage == None
      && UpToStage(rest.calls, 3)
  {
    var rest := AfterDetect(locationId, env, metadata, counts);
    if counts.Success? && |counts.value| == 2 {
      var msg := Telemetry.BuildTelemetry(locationId, metadata, counts.value[0], counts.value[1]);
      assert rest.calls == [Detect(metadata.fileName), SendTelemetry(msg)];
    }
  }

  /** A telemetry send that raises ends the cycle: no shutdown, no blur, no
      upload, and the image stays on disk. */
  lemma SendFailureStopsCycle(scriptDir: string, locationId: int, env: Environment)
    requires env.send == Raises
    ensures var run := RunCycle(scriptDir, locationId, env);
      && run.exit != Returned
      && run.delivered == None && run.uploaded == None && run.removedImage == None
      && UpToStage(run.calls, 3)
  {
    if ReachesDetector(env) {
      RunCycleReachesDetector(scriptDir, locationId, env);
      var metadata := Metadata.ExtractMetadata(env.capture.fileName, env.capture.tags).value;
      var counts := Detections.DetectionCounts(scriptDir, env.capture.fileName, env.labelFiles);
      SendFailureAfterDetect(locationId, env, metadata, counts);
      UpToStagePrefixed(AfterDetect(locationId, env, metadata, counts).calls, 3);
    } else {
      RunCycleStopsBeforeDetector(scriptDir, locationId, env);
    }
  }

  /** A detector that raises is only logged: given what lies under
      `runs/detect/exp/` afterwards, the cycle makes the same calls, ends the
      same way, sends the same message, uploads the same blob and leaves the
      same files whatever the detector's own outcome. */
  lemma DetectorFailureSwallowed(scriptDir: string, locationId: int, env: Environment, inference: Outcome)
    ensures var run := RunCycle(scriptDir, locationId, env);
      var other := RunCycle(scriptDir, locationId, env.(inference := inference));
      && other.calls == run.calls && other.exit == run.exit
      && other.delivered == run.delivered && other.uploaded == run.uploaded
      && other.removedImage == run.removedImage && other.runsRemoved == run.runsRemoved
      && other.expFiles == run.expFiles
  {
    var env' := env.(inference := inference);
    if ReachesDetector(env) {
      RunCycleReachesDetector(scriptDir, locationId, env);
      RunCycleReachesDetector(scriptDir, locationId, env');
      var metadata := Metadata.ExtractMetadata(env.capture.fileName, env.capture.tags).value;
      var counts := Detections.DetectionCounts(scriptDir, env.capture.fileName, env.labelFiles);
      if counts.Success? {
        var msg := Telemetry.BuildTelemetry(locationId, metadata, counts.value[0], counts.value[1]);
        assert Report(env', metadata.fileName, msg, env.expFiles) == Report(env, metadata.fileName, msg, env.expFiles);
      }
    } else {
      assert !ReachesDetector(env');
    }
  }

  lemma NoBlurredImageAfterDetect(locationId: int, env: Environment, metadata: Metadata.ImageMetadata,
                                  counts: Result<seq<nat>, Detections.ReadError>)
    ensures var rest := AfterDetect(locationId, env, metadata, counts);
      var name := Naming.DeriveBlobName(locationId, metadata.dateTime);
      rest.delivered.Some? && env.shutdown == Succeeds && !BlurredImagePresent(env, metadata.fileName, name) ==>
        && Blur(ExpDirectory + metadata.fileName, ExpDirectory + name) in rest.calls
        && rest.exit == Raised(BlurredImageMissing)
        && rest.uploaded == None && rest.removedImage == None && !rest.runsRemoved
  {
    var rest := AfterDetect(locationId, env, metadata, counts);
    var name := Naming.DeriveBlobName(locationId, metadata.dateTime);
    if rest.delivered.Some? && env.shutdown == Succeeds && !BlurredImagePresent(env, metadata.fileName, name) {
      var msg := Telemetry.BuildTelemetry(locationId, metadata, counts.value[0], counts.value[1]);
      var blurCall := Blur(ExpDirectory + metadata.fileName, ExpDirectory + name);
      assert rest.calls == [Detect(metadata.fileName), SendTelemetry(msg), Shutdown, blurCall,
                            Upload(name, ExpDirectory + name)];
      assert rest.calls[3] == blurCall;
    }
  }

  /** The blur's own exception is caught, but the upload opens the file the
      blur should have written, outside any `try`. So once the message is
      sent and the client shut down, a blur that raised, or an annotated
      image the detector did not leave, ends `main` with the missing-file
      error unless an earlier cycle left a file of that name: nothing is
      uploaded and neither the image nor `runs/` is removed. */
  lemma NoBlurredImageNoUpload(scriptDir: string, locationId: int, env: Environment)
    requires ReachesDetector(env)
    ensures var run := RunCycle(scriptDir, locationId, env);
      var name := Naming.DeriveBlobName(locationId, env.capture.tags.datetimeOriginal.value + env.capture.tags.offsetTime.value);
      && run.delivered.Some? && env.shutdown == Succeeds
      && ExpDirectory + name !in env.expFiles
      && (env.blur == Raises || ExpDirectory + env.capture.fileName !in env.expFiles)
      ==>
        && Blur(ExpDirectory + env.capture.fileName, ExpDirectory + name) in run.calls
        && run.exit == Raised(BlurredImageMissing)
        && run.uploaded == None && run.removedImage == None && !run.runsRemoved
  {
    RunCycleReachesDetector(scriptDir, locationId, env);
    var metadata := Metadata.ExtractMetadata(env.capture.fileName, env.capture.tags).value;
    Metadata.DateTimeIsConcatenation(env.capture.fileName, env.capture.tags);
    var counts := Detections.DetectionCounts(scriptDir, env.capture.fileName, env.labelFiles);
    NoBlurredImageAfterDetect(locationId, env, metadata, counts);
    var rest := AfterDetect(locationId, env, metadata, counts);
    var name := Naming.DeriveBlobName(locationId, metadata.dateTime);
    var blurCall := Blur(ExpDirectory + env.capture.fileName, ExpDirectory + name);
    if blurCall in rest.calls {
      var k :| 0 <= k < |rest.calls| && rest.calls[k] == blurCall;
      assert ([Connect] + ([Capture] + rest.calls))[k + 2] == blurCall;
    }
  }

  // ----- upload and cleanup -----

  /** The upload step raises: the blurred file is missing or the upload fails. */
  predicate UploadStepRaised(exit: Exit)
  {
    exit == Raised(BlurredImageMissing) || exit == Raised(UploadFailed)
  }

  lemma UploadFailureAfterDetect(locationId: int, env: Environment, metadata: Metadata.ImageMetadata,
                                 counts: Result<seq<nat>, Detections.ReadError>)
    ensures var rest := AfterDetect(locationId, env, metadata, counts);
      UploadStepRaised(rest.exit) ==> rest.removedImage == None && !rest.runsRemoved && UpToStage(rest.calls, 6)
  {
    var rest := AfterDetect(locationId, env, metadata, counts);
    if UploadStepRaised(rest.exit) {
      var msg := Telemetry.BuildTelemetry(locationId, metadata, counts.value[0], counts.value[1]);
      var r := Report(env, metadata.fileName, msg, env.expFiles);
      UploadFailureInReport(env, metadata.fileName, msg, env.expFiles);
      assert rest.calls == [Detect(metadata.fileName)] + r.calls;
      forall i | 0 <= i < |rest.calls|
        ensures Stage(rest.calls[i]) <= 6
      {
        if i > 0 {
          assert rest.calls[i] == r.calls[i - 1];
        }
      }
    }
  }

  lemma UploadFailureInReport(env: Environment, imageName: string, msg: Telemetry.TelemetryMessage, files: set<string>)
    ensures var r := Report(env, imageName, msg, files);
      UploadStepRaised(r.exit) ==>
        && !r.imageRemoved && !r.runsRemoved
        && r.calls == [SendTelemetry(msg), Shutdown, Blur(ExpDirectory + imageName, ExpDirectory + msg.fileName),
                       Upload(msg.fileName, ExpDirectory + msg.fileName)]
        && UpToStage(r.calls, 6)
  {
    var r := Report(env, imageName, msg, files);
    if UploadStepRaised(r.exit) {
      var blurCall := Blur(ExpDirectory + imageName, ExpDirectory + msg.fileName);
      var present := ExpDirectory + msg.fileName in BlurWrites(files, imageName, msg.fileName, env.blur);
      var p := Publish(msg.fileName, imageName, RunsDirectory, present, env.upload, env.remove, env.rmtree);
      assert r.calls == [SendTelemetry(msg), Shutdown, blurCall] + p.calls;
      assert p.calls == [Upload(msg.fileName, ExpDirectory + msg.fileName)];
    }
  }

  /** An upload step that raises (missing blurred file or failed upload)
      skips both removals: the image and the `runs/` tree stay, and no call
      after the upload is made. */
  lemma UploadFailureSkipsCleanup(scriptDir: string, locationId: int, env: Environment)
    ensures var run := RunCycle(scriptDir, locationId, env);
      UploadStepRaised(run.exit) ==> run.removedImage == None && !run.runsRemoved && UpToStage(run.calls, 6)
  {
    if ReachesDetector(env) {
      RunCycleReachesDetector(scriptDir, locationId, env);
      var metadata := Metadata.ExtractMetadata(env.capture.fileName, env.capture.tags).value;
      var counts := Detections.DetectionCounts(scriptDir, env.capture.fileName, env.labelFiles);
      UploadFailureAfterDetect(locationId, env, metadata, counts);
      var rest := AfterDetect(locationId, env, metadata, counts);
      if UploadStepRaised(rest.exit) {
        UpToStagePrefixed(rest.calls, 6);
      }
    } else {
      RunCycleStopsBeforeDetector(scriptDir, locationId, env);
    }
  }

  lemma CleanupInReport(env: Environment, imageName: string, msg: Telemetry.TelemetryMessage, files: set<string>,
                        remove: Outcome, rmtree: Outcome)
    ensures var r := Report(env, imageName, msg, files);
      var other := Report(env.(remove := remove, rmtree := rmtree), imageName, msg, files);
      && other.exit == r.exit && other.delivered == r.delivered && other.uploaded == r.uploaded
      && (r.runsRemoved ==> r.imageRemoved)
      && (RemoveTree(RunsDirectory) in r.calls <==> r.imageRemoved)
      && (env.remove == Raises ==> RemoveTree(RunsDirectory) !in r.calls)
  {
    if env.send != Raises && env.shutdown != Raises {
      var blurred := BlurWrites(files, imageName, msg.fileName, env.blur);
      var present := ExpDirectory + msg.fileName in blurred;
      var p := Publish(msg.fileName, imageName, RunsDirectory, present, env.upload, env.remove, env.rmtree);
      var blurCall := Blur(ExpDirectory + imageName, ExpDirectory + msg.fileName);
      assert Report(env, imageName, msg, files).calls == [SendTelemetry(msg), Shutdown, blurCall] + p.calls;
    }
  }

  lemma CleanupAfterDetect(locationId: int, env: Environment, metadata: Metadata.ImageMetadata,
                           counts: Result<seq<nat>, Detections.ReadError>, remove: Outcome, rmtree: Outcome)
    ensures var rest := AfterDetect(locationId, env, metadata, counts);
      var other := AfterDetect(locationId, env.(remove := remove, rmtree := rmtree), metadata, counts);
      && other.exit == rest.exit && other.delivered == rest.delivered && other.uploaded == rest.uploaded
      && (rest.runsRemoved ==> rest.removedImage.Some?)
      && (RemoveTree(RunsDirectory) in rest.calls <==> rest.removedImage.Some?)
      && (env.remove == Raises ==> RemoveTree(RunsDirectory) !in rest.calls)
      && (rest.removedImage.Some? ==> rest.uploaded.Some? && rest.removedImage == rest.captured)
  {
    if counts.Success? && |counts.value| == 2 {
      var msg := Telemetry.BuildTelemetry(locationId, metadata, counts.value[0], counts.value[1]);
      CleanupInReport(env, metadata.fileName, msg, env.expFiles, remove, rmtree);
    }
  }

  /** `os.remove` and `shutil.rmtree` share one `try`: the tree is removed
      only once the image has been, and `rmtree` is attempted exactly when
      `os.remove` succeeded, never after it raised. Neither changes the exit,
      the message or the blob. */
  lemma CleanupFailuresNeverRaise(scriptDir: string, locationId: int, env: Environment,
                                  remove: Outcome, rmtree: Outcome)
    ensures var run := RunCycle(scriptDir, locationId, env);
      var other := RunCycle(scriptDir, locationId, env.(remove := remove, rmtree := rmtree));
      && other.exit == run.exit && other.delivered == run.delivered && other.uploaded == run.uploaded
      && (run.runsRemoved ==> run.removedImage.Some?)
      && (RemoveTree(RunsDirectory) in run.calls <==> run.removedImage.Some?)
      && (env.remove == Raises ==> RemoveTree(RunsDirectory) !in run.calls)
      && (run.removedImage.Some? ==> run.uploaded.Some? && run.removedImage == run.captured)
  {
    var env' := env.(remove := remove, rmtree := rmtree);
    if ReachesDetector(env) {
      RunCycleReachesDetector(scriptDir, locationId, env);
      RunCycleReachesDetector(scriptDir, locationId, env');
      var metadata := Metadata.ExtractMetadata(env.capture.fileName, env.capture.tags).value;
      var counts := Detections.DetectionCounts(scriptDir, env.capture.fileName, env.labelFiles);
      CleanupAfterDetect(locationId, env, metadata, counts, remove, rmtree);
    } else {
      assert !ReachesDetector(env');
      RunCycleStopsBeforeDetector(scriptDir, locationId, env);
      RunCycleStopsBeforeDetector(scriptDir, locationId, env');
    }
  }

  lemma UploadedAfterDetect(locationId: int, env: Environment, metadata: Metadata.ImageMetadata,
                            counts: Result<seq<nat>, Detections.ReadError>)
    ensures var rest := AfterDetect(locationId, env, metadata, counts);
      rest.uploaded.Some? ==>
        && rest.delivered.Some? && rest.captured.Some?
        && rest.uploaded.value == rest.delivered.value.fileName
        && Blur(ExpDirectory + rest.captured.value, ExpDirectory + rest.uploaded.value) in rest.calls
        && Upload(rest.uploaded.value, ExpDirectory + rest.uploaded.value) in rest.calls
        && BlurredImagePresent(env, rest.captured.value, rest.uploaded.value)
  {
    var rest := AfterDetect(locationId, env, metadata, counts);
    if rest.uploaded.Some? {
      var msg := Telemetry.BuildTelemetry(locationId, metadata, counts.value[0], counts.value[1]);
      var blurCall := Blur(ExpDirectory + metadata.fileName, ExpDirectory + msg.fileName);
      var uploadCall := Upload(msg.fileName, ExpDirectory + msg.fileName);
      var present := BlurredImagePresent(env, metadata.fileName, msg.fileName);
      var p := Publish(msg.fileName, metadata.fileName, RunsDirectory, present, env.upload, env.remove, env.rmtree);
      assert rest.calls == [Detect(metadata.fileName), SendTelemetry(msg), Shutdown, blurCall] + p.calls;
      assert p.calls[0] == uploadCall;
      assert rest.calls[3] == blurCall && rest.calls[4] == uploadCall;
    }
  }

  /** The uploaded blob is named by the FileName of the message sent before
      it, and the file opened for it existed: written by the blur from the
      detector's annotated image, or left under that name by an earlier
      cycle. A name no earlier cycle left is uploaded only after a blur that
      ran on the annotated image. */
  lemma UploadedBlobIsReportedFileName(scriptDir: string, locationId: int, env: Environment)
    ensures var run := RunCycle(scriptDir, locationId, env);
      run.uploaded.Some? ==>
        && run.delivered.Some? && run.captured.Some?
        && run.uploaded.value == run.delivered.value.fileName
        && Blur(ExpDirectory + run.captured.value, ExpDirectory + run.uploaded.value) in run.calls
        && Upload(run.uploaded.value, ExpDirectory + run.uploaded.value) in run.calls
        && (ExpDirectory + run.uploaded.value in env.expFiles
            || (env.blur == Succeeds && ExpDirectory + run.captured.value in env.expFiles))
  {
    if ReachesDetector(env) {
      RunCycleReachesDetector(scriptDir, locationId, env);
      var metadata := Metadata.ExtractMetadata(env.capture.fileName, env.capture.tags).value;
      var counts := Detections.DetectionCounts(scriptDir, env.capture.fileName, env.labelFiles);
      UploadedAfterDetect(locationId, env, metadata, counts);
    } else {
      RunCycleStopsBeforeDetector(scriptDir, locationId, env);
    }
  }

  /** The message delivered is the one built from the capture's metadata and
      the counts read from its label file. */
  lemma DeliveredMessageDescribesCapture(scriptDir: string, locationId: int, env: Environment)
    ensures var run := RunCycle(scriptDir, locationId, env);
      run.delivered.Some? ==>
        && env.capture.Captured?
        && var metadata := Metadata.ExtractMetadata(env.capture.fileName, env.capture.tags);
           var counts := Detections.DetectionCounts(scriptDir, env.capture.fileName, env.labelFiles);
        && metadata.Success? && counts.Success?
        && run.delivered.value == Telemetry.BuildTelemetry(locationId, metadata.value, counts.value[0], counts.value[1])
        && run.delivered.value.fileName == Naming.DeriveBlobName(locationId, metadata.value.dateTime)
  {
  }

  // ----- the worked scenario -----

  /** The camera's image "IMG01.JPG", taken at "2022:05:13 18:20:14" with
      offset "-04:00" and no GPS tags; every external call succeeds, the
      detector leaves its annotated image and a label file holding `rows`. */
  function ScenarioEnvironment(rows: seq<Detections.LabelRow>): Environment
  {
    var tags := Metadata.ExifTags(None, None, None, None, None, Some("2022:05:13 18:20:14"), Some("-04:00"));
    Environment(Succeeds, Captured("IMG01.JPG", tags), Succeeds,
                map["runs/detect/exp/labels/IMG01.txt" := rows], {"runs/detect/exp/IMG01.JPG"},
                Succeeds, Succeeds, Succeeds, Succeeds, Succeeds, Succeeds)
  }

  /** With every call succeeding and the annotated image in place, the end
      of the scenario's cycle blurs, uploads and cleans up. */
  lemma ScenarioEnd(env: Environment, msg: Telemetry.TelemetryMessage)
    requires env.send == Succeeds && env.shutdown == Succeeds && env.blur == Succeeds
    requires env.upload == Succeeds && env.remove == Succeeds && env.rmtree == Succeeds
    requires "runs/detect/exp/IMG01.JPG" in env.expFiles
    ensures var r := Report(env, "IMG01.JPG", msg, env.expFiles);
      && r.exit == Returned && r.delivered == Some(msg) && r.uploaded == Some(msg.fileName)
      && r.imageRemoved && r.runsRemoved && r.expFiles == {}
  {
    assert ExpDirectory + "IMG01.JPG" == "runs/detect/exp/IMG01.JPG";
  }

  lemma ScenarioDateTimeText()
    ensures "2022:05:13 18:20:14" + "-04:00" == "2022:05:13 18:20:14-04:00"
  {
  }

  /** At location 7, with three persons and two chairs detected, the cycle
      sends "7_20220513_182014-0400.JPG" with the raw datetime and zero GPS
      values, blurs and uploads that blob and removes the image and the
      `runs/` tree. */
  lemma ScenarioCycle(rows: seq<Detections.LabelRow>)
    requires multiset(Detections.ClassIds(rows))[Detections.PersonClass] == 3
    requires multiset(Detections.ClassIds(rows))[Detections.ChairClass] == 2
    ensures var run := RunCycle("", 7, ScenarioEnvironment(rows));
      && run.exit == Returned
      && run.delivered == Some(Telemetry.TelemetryMessage(
           "7_20220513_182014-0400.JPG", 7.0, 3, 2, "2022:05:13 18:20:14-04:00", 0.0, 0.0, 0))
      && run.uploaded == Some("7_20220513_182014-0400.JPG")
      && run.removedImage == Some("IMG01.JPG") && run.runsRemoved && run.expFiles == Some({})
  {
    var env := ScenarioEnvironment(rows);
    assert ReachesDetector(env);
    RunCycleReachesDetector("", 7, env);
    Metadata.MissingGpsTagZeroesAllThree("IMG01.JPG", env.capture.tags);
    Metadata.DateTimeIsConcatenation("IMG01.JPG", env.capture.tags);
    var metadata := Metadata.ExtractMetadata("IMG01.JPG", env.capture.tags).value;
    ScenarioDateTimeText();
    assert metadata.dateTime == "2022:05:13 18:20:14" + "-04:00";
    assert metadata == Metadata.ImageMetadata("IMG01.JPG", "2022:05:13 18:20:14-04:00", 0.0, 0.0, 0.0);

    LabelPaths.LabelsFilePathExample();
    assert rows != [];
    Detections.CountsOfFoundFile(rows);
    var counts := Detections.DetectionCounts("", "IMG01.JPG", env.labelFiles);
    assert counts == Success([3, 2]);

    Telemetry.ScenarioMessage(0.0, 0.0);
    var name := "7_20220513_182014-0400.JPG";
    var msg := Telemetry.BuildTelemetry(7, metadata, 3, 2);
    assert msg.fileName == name;
    ScenarioEnd(env, msg);
  }
}
