# HumanDetectionAndCount: one capture cycle, modelled in Dafny

The edge device of HumanDetectionAndCount runs one cycle per received
location id. It captures a 360° image, reads the image's EXIF date and GPS
tags, and runs YOLOv5 restricted to persons (class 0) and chairs (class 56).
It counts the rows of the detector's label file and sends a telemetry
message to the IoT hub. It then face-blurs the image, uploads the blurred
file as a blob, and removes the local image and the `runs/` tree.

This project models the deterministic logic of that cycle. It covers
`HumanCount.py` and the duplicate helpers in `HumanCountFunctions.py`:

- `gps.dfy` (`Gps`): `dms_coordinates_to_dd_coordinates`, over exact reals.
  The two files share one body. A tuple that cannot be indexed or summed
  gives 0.
- `metadata.dfy` (`Metadata`): the metadata list of
  `captureImageAndExtractMetadata`. The EXIF tags arrive as a record of
  optional values. A missing GPS tag triggers the `except AttributeError`
  fallback. A missing date tag is an error that escapes.
- `naming.dfy` (`Naming`): the timestamp normalisation
  `replace(':', '').replace(' ', '_')`, `str(location_id)` and the blob
  name `str(location_id) + '_' + timestamp + '.JPG'`.
- `label_paths.dfy` (`LabelPaths`): the label path of
  `photoInferenceAndGetInferenceResults`. It is built from the POSIX
  behaviour of `os.path.join`, `str.rfind`, `os.path.splitext` and
  `split('/')[-1]`, each written out.
- `detections.dfy` (`Detections`): the counting of class-0 and class-56
  rows. A missing label file gives `[0, 0]`. An empty one raises, as pandas
  does.
- `telemetry.dfy` (`Telemetry`): the message dict built in `main`.
- `cycle.dfy` (`Cycle`): `main`, `photoInferenceAndGetInferenceResults`,
  `send_telemetry_from_nano`, `faceBlur` and
  `uploadBlobToAzureAndRemoveRunsDirectoryAndLocalImage`, as the class
  `Device` with these fields:
  - the image files on disk;
  - whether `runs/` exists;
  - the files under `runs/detect/exp/`: the detector's annotated image and
    the blurred copy the upload opens;
  - the blob container;
  - the messages delivered;
  - the trace of external calls.

  Every external call is an `Outcome` handed in by the caller. Its value is
  `Succeeds` or `Raises`; a capture outcome also carries the file name and
  tags. `RunCycle` is the reference function for one cycle. `Device.Run` is
  proved to change the device exactly as `RunCycle` says.
- `cycle_properties.dfy` (`CycleProperties`): the ordering and failure
  policy of the cycle, proved about `RunCycle`.

Five behaviours of the code are easy to misread, and the model keeps them
as written:

- **Offset colon.** The timestamp loses every ':', including the one in the
  UTC offset. "2022:05:13 18:20:14-04:00" becomes "20220513_182014-0400",
  as the comment at HumanCount.py:272 shows. It does not become
  "…-04:00".
- **Cleanup.** `os.remove` and `shutil.rmtree` sit in one `try`, so a
  failing `os.remove` skips `rmtree`. The two removals are not attempted
  independently.
- **Telemetry failures.** `send_telemetry()` and `device_client.shutdown()`
  are awaited outside any `try`. If either raises, `main` raises: no blur,
  no upload, no cleanup.
- **Date tags.** `image.datetime_original + image.offset_time` is evaluated
  outside any `try`. A missing offset tag raises; it is not defaulted.
- **Blurred file.** `faceBlur` catches its own exception, but the upload
  opens `runs/detect/exp/<FileName>` outside any `try`. A blur that never
  wrote that file makes `main` raise before the upload and the cleanup.

## Model

| member | source | states |
|---|---|---|
| Gps.DecimalDegrees | HumanCount.py:140-152 | A malformed tuple gives 0; otherwise the result is plus or minus `d + m/60 + s/3600` |
| Gps.SignFollowsRef | HumanCountFunctions.py:140-141 | For every tuple, the result is the "N" result times -1 when the ref is "S" or "W", and times 1 for every other ref |
| Gps.NegatedExactlyForSouthOrWest | HumanCountFunctions.py:134-143 | For a positive magnitude, the result is negative exactly when the ref is "S" or "W" |
| Gps.MalformedCoordinatesGiveZero | HumanCountFunctions.py:144-146 | Absent coordinates, fewer than three parts, or a non-number among the first three all give 0, whatever the ref |
| Gps.WellFormedReadingStaysWithinItsDegree | HumanCount.py:142-144 | For whole minutes in 0..59 and seconds in [0, 60), the magnitude lies in [d, d + 1) |
| Gps.DecimalDegreesRoundTrip | HumanCount.py:140-149 | The camera's (d, m, s) reading and hemisphere ref of any signed decimal value convert back to exactly that value |
| Gps.TenDegreesThirtyMinutes | HumanCount.py:140-149 | (10, 30, 0) gives -10.5 with "S" and 10.5 with "N" or "E" |
| Metadata.GpsOrFallback | HumanCountFunctions.py:34-42 | A missing GPS tag makes latitude, longitude and altitude all 0 |
| Metadata.ExtractMetadata | HumanCountFunctions.py:44-47 | The list is produced exactly when both date tags exist, and it carries the captured file name |
| Metadata.DateTimeIsConcatenation | HumanCountFunctions.py:44 | The datetime field is `datetime_original` followed directly by `offset_time` |
| Metadata.MissingGpsTagZeroesAllThree | HumanCountFunctions.py:38-42 | A missing GPS tag zeroes all three values and still yields a metadata list |
| Metadata.MalformedLatitudeZeroesOnlyLatitude | HumanCountFunctions.py:34-37 | With all tags present, a malformed latitude is zeroed by the conversion alone; longitude and altitude keep their values |
| Metadata.CompleteTagsAreConverted | HumanCountFunctions.py:34-46 | With all tags present, the list is [name, date + offset, converted latitude, converted longitude, altitude] |
| Naming.RemoveAll | HumanCount.py:273 | `replace(':', '')` leaves no ':' and never lengthens the text |
| Naming.ReplaceAll | HumanCount.py:274 | `replace(' ', '_')` keeps the length; each ' ' becomes '_' and every other character stays in place |
| Naming.NormalizeTimestamp | HumanCount.py:272-274 | The timestamp holds no ':' and no ' ' |
| Naming.RemoveAllAppend | HumanCount.py:273 | Deleting ':' distributes over concatenation |
| Naming.ReplaceAllAppend | HumanCount.py:274 | Replacing ' ' distributes over concatenation |
| Naming.NormalizeAppend | HumanCount.py:273-274 | Normalisation distributes over concatenation |
| Naming.NormalizeCharacter | HumanCount.py:273-274 | Per character: ':' is dropped, ' ' becomes '_', anything else is kept |
| Naming.NormalizeKeepsPlainText | HumanCount.py:273-274 | Text without ':' or ' ' is unchanged |
| Naming.NormalizeIsIdempotent | HumanCount.py:273-274 | Normalising twice equals normalising once |
| Naming.NormalizeCameraFormat | HumanCount.py:272-274 | `Y:M:D h:m:s±HH:MM` becomes `YMD_hms±HHMM`: the offset loses its colon too |
| Naming.NormalizeCameraExample | HumanCount.py:272 | "2022:05:13 18:20:14-04:00" becomes "20220513_182014-0400" |
| Naming.NatToDecimal | HumanCount.py:282 | `str(n)` for n >= 0 is a non-empty string of digits, with no leading zero when n >= 10 |
| Naming.DecimalRoundTrip | HumanCount.py:282 | The digits of `str(n)` read back as n |
| Naming.IntToDecimal | HumanCount.py:282 | `str(location_id)` is non-empty and holds no '_', ':', ' ' or '/' |
| Naming.IntToDecimalRoundTrip | HumanCount.py:282 | `str(location_id)` reads back as the location id, sign included |
| Naming.IntToDecimalInjective | HumanCount.py:282 | Distinct location ids have distinct `str` texts |
| Naming.BlobName | HumanCount.py:282 | Computes `str(location_id) + '_' + timestamp + '.JPG'`; Naming.FirstUnderscore and Naming.BlobNameInjective state how it is read back |
| Naming.DeriveBlobName | HumanCount.py:272-282 | Computes the blob name from the raw datetime through Naming.NormalizeTimestamp; Naming.DerivedBlobNameShape and Naming.ScenarioBlobName state its shape and example |
| Naming.ScenarioBlobName | HumanCount.py:282 | Location 7 and the camera example give "7_20220513_182014-0400.JPG" |
| Naming.DerivedBlobNameShape | HumanCount.py:282 | The name ends in ".JPG" and holds no ':' or ' ' |
| Naming.FirstUnderscore | HumanCount.py:282 | The first '_' of the name ends `str(location_id)`, and the text between it and ".JPG" is the timestamp |
| Naming.BlobNameInjective | HumanCount.py:282 | Equal blob names come from equal location ids and equal timestamps, so a collision needs the same location and second |
| LabelPaths.RFind | HumanCount.py:85 | `rfind` returns the last index holding the character, or -1 when there is none |
| LabelPaths.SplitExt | HumanCount.py:85 | `splitext` gives root + ext == path; ext is empty or a single '.'-led extension with no '/' |
| LabelPaths.LastComponent | HumanCount.py:86 | `split('/')[-1]` is a suffix of the path with no '/' |
| LabelPaths.JoinPath | HumanCount.py:84 | `os.path.join(a, b)` for a relative `b` is `a + b` or `a + '/' + b` |
| LabelPaths.JoinPathKeepsBoth | HumanCount.py:84 | The joined path starts with `a`, ends with `b`, and adds at most one character between them |
| LabelPaths.DetectDirectory | HumanCount.py:84 | `RDEdirectory` is non-empty and ends in '/' |
| LabelPaths.DetectDirectoryBesideScript | HumanCount.py:84 | A script in the working directory itself writes under the relative `runs/detect/exp/` |
| LabelPaths.SplitAtLastSeparator | HumanCount.py:86 | A path is the text up to its last '/', which is empty or ends in '/', followed by `split('/')[-1]` |
| LabelPaths.SplitExtAfterSeparator | HumanCount.py:85 | Behind a directory prefix, `splitext` only looks at the last component |
| LabelPaths.LastComponentAfterSeparator | HumanCount.py:86 | Behind a directory prefix, the last component is the base name |
| LabelPaths.LabelsFilePath | HumanCount.py:84-87 | Computes `labels_filepath` from `RDEdirectory` and the image name, step by step as the code does; LabelPaths.LabelsFilePathFromBaseName states what it is |
| LabelPaths.RootBelowDirectory | HumanCount.py:85-86 | Below a directory ending in '/', the last component of the `splitext` root is the root of the image's base name |
| LabelPaths.LabelsFilePathFromBaseName | HumanCount.py:84-87 | The label path is `RDEdirectory + 'labels/'` + the image's base name without its last extension + ".txt" |
| LabelPaths.SplitExtOfSimpleName | HumanCountFunctions.py:79 | `stem.ext` splits into `stem` and `.ext`, even when the stem holds dots |
| LabelPaths.LabelsFilePathOfSimpleName | HumanCountFunctions.py:78-81 | An image `stem.ext` has its labels at `runs/detect/exp/labels/stem.txt` under the script directory |
| LabelPaths.LabelsFilePathExample | HumanCount.py:84-87 | "IMG01.JPG" beside the script gives "runs/detect/exp/labels/IMG01.txt" |
| Detections.LabelFileAt | HumanCount.py:87-91 | The label file is found exactly when a file exists at the path, and it holds that file's rows |
| Detections.CountClass | HumanCount.py:93-94 | A class count never exceeds the number of rows |
| Detections.CountIsMultiplicity | HumanCount.py:93-94 | The count of a class is that class's multiplicity in the class column |
| Detections.DistinctClassesBounded | HumanCount.py:93-94 | Counts of two distinct classes sum to at most the number of rows |
| Detections.InferenceResults | HumanCount.py:90-103 | A missing file gives [0, 0]; an empty file raises; any result is a two-element list |
| Detections.DetectionCounts | HumanCount.py:84-101 | Looks the label file up at LabelPaths.LabelsFilePath and counts it with Detections.InferenceResults; Detections.MissingLabelFileCountsZero and Detections.CountsOfFoundFile state the results |
| Detections.CountsOfFoundFile | HumanCountFunctions.py:84-88 | A non-empty file gives [persons, chairs]: the multiplicities of classes 0 and 56, summing to at most the row count |
| Detections.MissingLabelFileCountsZero | HumanCountFunctions.py:90-93 | No file at the derived path gives [0, 0], not an error |
| Detections.OtherClassesIgnored | HumanCountFunctions.py:87-88 | A row of any other class changes neither count |
| Telemetry.TruncateTowardZero | HumanCount.py:270 | `int(altitude)` truncates toward zero |
| Telemetry.BuildTelemetry | HumanCount.py:282-290 | FileName is the derived blob name; LocationID is `float(location_id)`; NumberOfPersons and NumberOfEmptySeats are the two counts; DateTime is the raw, un-normalised datetime; the GPS fields are the metadata's latitude, longitude and `int(altitude)` |
| Telemetry.FileNameCarriesLocationAndTime | HumanCount.py:282-290 | FileName is `str(location_id)` up to its first '_', reading back as LocationID, then the normalised DateTime, then ".JPG" |
| Telemetry.FileNameDeterminesLocationAndTime | HumanCount.py:282-290 | Messages with equal FileName have equal LocationID and equal normalised DateTime |
| Telemetry.ScenarioMessage | HumanCount.py:282-290 | Location 7, "IMG01.JPG" at "2022:05:13 18:20:14-04:00", 3 persons and 2 chairs give FileName "7_20220513_182014-0400.JPG", LocationID 7.0 and the raw DateTime |
| Cycle.BlurWrites | HumanCount.py:155-169 | The blur only adds `runs/detect/exp/<FileName>`, and that file is there afterwards exactly when it was there before or the blur succeeded on an existing `runs/detect/exp/<image>` |
| Cycle.Publish | HumanCount.py:174-195 | The upload is the first call. `main` returns exactly when the blurred file is present and the upload succeeds; a raise stops after the upload call. The image is removed exactly when the upload returned and `os.remove` succeeds, and `runs/` exactly when the image was removed and `rmtree` succeeds |
| Cycle.Report | HumanCount.py:294-301 | The message is delivered exactly when the send succeeds, and it is the message built. `main` returns exactly when a blob was uploaded; the blob is the message's FileName and follows a successful shutdown. The image is removed only after an upload |
| Cycle.RunCycle | HumanCount.py:198-301 | The reference run of `main(location_id)`: trace, exit, captured image, delivered message, blob and removals. CycleProperties.CallsFollowMainOrder, CycleProperties.ReturnsExactlyWhenUploaded and the other CycleProperties lemmas state its properties |
| Cycle.AfterCapture | HumanCount.py:266-301 | The run from the detector on, with the counts read at the derived label path; CycleProperties.DeliveredMessageDescribesCapture states the message it sends |
| Cycle.AfterDetect | HumanCount.py:277-301 | The run given what reading the label file gave: an empty file raises, otherwise the message is built and Cycle.Report runs; CycleProperties.EmptyLabelFileAbortsAfterDetect and CycleProperties.DetectorFailureSwallowed state its properties |
| Cycle.Device.CaptureImageAndExtractMetadata | HumanCount.py:23-55 | The image is on disk before its tags are read. A capture that raises writes nothing. A missing date tag raises with the image kept |
| Cycle.Device.PhotoInferenceAndGetInferenceResults | HumanCount.py:58-103 | A detector that raises is only logged. The result is the counts read at the derived label path; `runs/` exists once the detector ran or left files; `runs/detect/exp/` holds what the detector step left. The device invariant, that `runs/` exists whenever files lie under `runs/detect/exp/`, is kept |
| Cycle.Device.SendTelemetryFromNano | HumanCount.py:120-125 | The message is delivered exactly when the send succeeds, and the call is recorded |
| Cycle.Device.FaceBlur | HumanCount.py:155-171 | The blur call, `runs/detect/exp/<image>` to `runs/detect/exp/<FileName>`, is recorded. An exception is swallowed. The blurred file appears only when the binary ran and the annotated image existed |
| Cycle.Device.UploadBlobAndRemoveRunsDirectoryAndLocalImage | HumanCount.py:174-195 | New state follows `Publish`. A missing blurred file or an upload that raises stops before any removal. A failing `os.remove` skips `rmtree`. Neither removal raises, and a removed tree takes `runs/detect/exp/` with it |
| Cycle.Device.ReportAndPublish | HumanCount.py:294-301 | New state follows `Report`: send, shutdown, blur, then upload and cleanup |
| Cycle.Device.ProcessCapture | HumanCount.py:266-301 | New state follows `AfterCapture`, from the timestamp and the detector to the end of the cycle |
| Cycle.Device.Run | HumanCount.py:198-301 | Exit, call trace, images, `runs/`, the files under `runs/detect/exp/`, messages and container all follow `RunCycle` |
| CycleProperties.PublishInOrder | HumanCount.py:186-192 | Upload, remove and rmtree are attempted in that order |
| CycleProperties.ReportInOrder | HumanCount.py:294-301 | Send, shutdown and blur precede the upload and cleanup |
| CycleProperties.CallsFollowMainOrder | HumanCount.py:258-301 | A cycle starts by connecting, and its calls follow the order of the lines of `main`, each made at most once |
| CycleProperties.ReturnsExactlyWhenUploaded | HumanCount.py:198-301 | `main` returns iff connect, capture, both date tags, the label read, send and shutdown succeed, the blurred file exists and the upload succeeds; and iff the blob was written |
| CycleProperties.ConnectFailureTouchesNothing | HumanCount.py:227-258 | A failed connection raises before the camera is used |
| CycleProperties.CaptureFailureAbortsBeforeTelemetry | HumanCount.py:262 | A capture that raises ends the cycle after [connect, capture], with nothing sent, uploaded or detected |
| CycleProperties.MissingDateTagLeavesImage | HumanCount.py:34-51 | A missing date tag raises after the capture, with the image left on disk |
| CycleProperties.EmptyLabelFileAbortsAfterDetect | HumanCount.py:90-92 | An empty label file raises right after the detector, before any telemetry |
| CycleProperties.SendFailureStopsCycle | HumanCount.py:285-298 | A send that raises ends the cycle with no shutdown, blur or upload, and the image is kept |
| CycleProperties.DetectorFailureSwallowed | HumanCount.py:65-82 | Given the files the detector step leaves, the detector's own exception changes neither the trace, the exit, the message, the blob, the cleanup nor the files left |
| CycleProperties.NoBlurredImageNoUpload | HumanCount.py:155-187 | After send and shutdown, a blur that raised or a missing annotated image ends `main` at the upload's `open`, unless an earlier cycle left that file. Nothing is uploaded and neither the image nor `runs/` is removed |
| CycleProperties.UploadFailureSkipsCleanup | HumanCount.py:186-195 | A missing blurred file or an upload that raises removes neither the image nor `runs/`, and nothing comes after the upload |
| CycleProperties.UploadFailureInReport | HumanCount.py:186-195 | Once the message is built, an upload step that raises ends the trace at the upload, after send, shutdown and blur, with nothing removed |
| CycleProperties.CleanupInReport | HumanCount.py:189-195 | Once the message is built, the removal outcomes change neither the exit, the message nor the blob; `rmtree` is attempted exactly when the image was removed, never after `os.remove` raised |
| CycleProperties.CleanupFailuresNeverRaise | HumanCount.py:190-195 | The removal outcomes change neither the exit, the message nor the blob. `rmtree` runs iff the image was removed, and never after `os.remove` raised. Only an uploaded, captured image is removed |
| CycleProperties.UploadedBlobIsReportedFileName | HumanCount.py:155-187 | The blob uploaded is named by the FileName that was sent. The file opened for it came from a blur that ran on the annotated image, or was left under that name by an earlier cycle |
| CycleProperties.DeliveredMessageDescribesCapture | HumanCount.py:262-291 | The message sent is built from the capture's metadata and its label counts, and its FileName is the derived blob name |
| CycleProperties.ScenarioCycle | HumanCount.py:262-301 | Location 7 and "IMG01.JPG" with 3 persons and 2 chairs give FileName "7_20220513_182014-0400.JPG": sent, blurred, uploaded, and the image and `runs/` removed |

## Left out

- The camera (gphoto2) and the `exif` parser are not modelled. The capture is an outcome that either raises or yields a file name and a record of optional tags.
- In HumanCount.py, an image that `exif` cannot open is swallowed by the bare `except`, and line 51 then raises. The model reaches the same end (raise, image kept) through a record whose date tag is absent.
- The YOLOv5 and blur360 subprocesses are not modelled. Each is one outcome. The fused `'--save-txt' '--project'` argument is not modelled.
- Cycle.Device.PhotoInferenceAndGetInferenceResults: what lies under `runs/detect/exp/` after the detector step is an input: the label files and the other files, such as the annotated image. So a detector that raised is not tied to a missing annotated image. CycleProperties.NoBlurredImageNoUpload states the consequence in terms of those files.
- Cycle.Device.UploadBlobAndRemoveRunsDirectoryAndLocalImage: the upload outcome covers client creation and `upload_blob`, and it is taken after the file check. So a bad connection string together with a missing blurred file reports the missing file. Either way `main` raises and keeps the image and `runs/`.
- pandas `read_csv` parsing is not modelled. A label file is a sequence of rows carrying an integer class id. Whitespace parsing and rows without five columns are out of scope. An empty file raising is kept.
- Azure SDK work is not modelled. Provisioning, the two security-type branches and their `RuntimeError`s, `connect`, `send_message`, `shutdown` and `upload_blob` are outcomes. The connection steps collapse into one connect outcome.
- CSV configuration loading and the environment variables are not modelled; they are I/O.
- `asyncio.sleep(8)` and the async scheduling are not modelled. The awaits are taken in order, one cycle at a time.
- `format_dms_coordinates` is not modelled: it formats floats as text and is never called.
- Float behaviour is not modelled. The DMS formula is over exact reals. `float(location_id)` is the integer as a real, and `int(altitude)` truncates toward zero.
- Cycle.Device.Run: `location_id` is an integer. A string payload such as "07" would be kept verbatim by `str()`; that case is not modelled.
- Cycle.Device.Run: the working directory is the set of image files, one flag for `runs/` and the set of files under `runs/detect/exp/`. The label files are a per-cycle input, not device state.
- WIP_Camera.py is not modelled. It is the command loop that calls `main`.
- FaceBlurAndAzureWSUpload.py is not modelled. It is a separate process-pool upload script.
- Gps.NegatedExactlyForSouthOrWest: the sign equivalence requires a positive magnitude. With a zero magnitude the negation gives 0 again; Gps.SignFollowsRef states the sign rule for every tuple.
