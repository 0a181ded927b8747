/** The telemetry message `main` builds for one capture (the dict passed to
    `send_telemetry_from_nano`), from the location id, the metadata list and
    the two counts. */
module Telemetry {
  import Naming
  import Metadata

  /** The JSON object sent to the IoT hub, one field per key. */
  datatype TelemetryMessage = TelemetryMessage(
    fileName: string,          // "FileName"
    locationId: real,          // "LocationID", float(location_id)
    numberOfPersons: nat,      // "NumberOfPersons"
    numberOfEmptySeats: nat,   // "NumberOfEmptySeats"
    dateTime: string,          // "DateTime", the raw datetime string
    gpsLatitude: real,         // "GPS_Latitude"
    gpsLongitude: real,        // "GPS_Longitude"
    gpsAltitude: int)          // "GPS_Altitude", int(altitude)

  /** Python's `int(x)` on a number: truncation toward zero. */
  function TruncateTowardZero(x: real): (n: int)
    ensures 0.0 <= x ==> 0 <= n && n as real <= x < n as real + 1.0
    ensures x < 0.0 ==> n <= 0 && n as real - 1.0 < x <= n as real
  {
    if x >= 0.0 then x.Floor else -((-x).Floor)
  }

  /** The message of `send_telemetry` in `main`. */
  function BuildTelemetry(locationId: int, metadata: Metadata.ImageMetadata, persons: nat, chairs: nat)
    : (msg: TelemetryMessage)
    ensures msg.numberOfPersons == persons && msg.numberOfEmptySeats == chairs
    ensures msg.dateTime == metadata.dateTime
    ensures msg.locationId == locationId as real
    ensures msg.fileName == Naming.DeriveBlobName(locationId, metadata.dateTime)
    ensures msg.gpsLatitude == metadata.latitude && msg.gpsLongitude == metadata.longitude
    ensures msg.gpsAltitude == TruncateTowardZero(metadata.altitude)
  {
    var alteredFilename := Naming.DeriveBlobName(locationId, metadata.dateTime);
    TelemetryMessage(
      alteredFilename, locationId as real, persons, chairs, metadata.dateTime,
      metadata.latitude, metadata.longitude, TruncateTowardZero(metadata.altitude))
  }

  /** The FileName begins with the location id up to its first '_', and that
      text reads back as the LocationID field; the rest, before ".JPG", is the
      DateTime field normalised. */
  lemma FileNameCarriesLocationAndTime(locationId: int, metadata: Metadata.ImageMetadata, persons: nat, chairs: nat)
    ensures var msg := BuildTelemetry(locationId, metadata, persons, chairs);
      exists k :: 0 <= k < |msg.fileName| - 4
        && msg.fileName[k] == '_'
        && (forall i :: 0 <= i < k ==> msg.fileName[i] != '_')
        && (msg.fileName[0] == '-' || Naming.IsDigit(msg.fileName[0]))
        && (forall i :: 1 <= i < k ==> Naming.IsDigit(msg.fileName[i]))
        && k >= 1 && Naming.ParseInt(msg.fileName[..k]) as real == msg.locationId
        && msg.fileName[k + 1..|msg.fileName| - 4] == Naming.NormalizeTimestamp(msg.dateTime)
        && msg.fileName[|msg.fileName| - 4..] == ".JPG"
  {
    var msg := BuildTelemetry(locationId, metadata, persons, chairs);
    var t := Naming.NormalizeTimestamp(metadata.dateTime);
    Naming.FirstUnderscore(locationId, t);
    Naming.IntToDecimalRoundTrip(locationId);
    var k := |Naming.IntToDecimal(locationId)|;
    assert msg.fileName == Naming.IntToDecimal(locationId) + "_" + t + ".JPG";
    assert msg.fileName[|msg.fileName| - 4..] == ".JPG";
    assert msg.fileName[..k] == Naming.IntToDecimal(locationId);
  }

  /** Two messages with the same FileName agree on LocationID and on the
      normalised DateTime: the name is unique per location and capture second. */
  lemma FileNameDeterminesLocationAndTime(
    l1: int, m1: Metadata.ImageMetadata, p1: nat, c1: nat,
    l2: int, m2: Metadata.ImageMetadata, p2: nat, c2: nat)
    requires BuildTelemetry(l1, m1, p1, c1).fileName == BuildTelemetry(l2, m2, p2, c2).fileName
    ensures BuildTelemetry(l1, m1, p1, c1).locationId == BuildTelemetry(l2, m2, p2, c2).locationId
    ensures Naming.NormalizeTimestamp(m1.dateTime) == Naming.NormalizeTimestamp(m2.dateTime)
  {
    Naming.BlobNameInjective(l1, Naming.NormalizeTimestamp(m1.dateTime), l2, Naming.NormalizeTimestamp(m2.dateTime));
  }

  /** The worked scenario: location 7, image "IMG01.JPG" taken at
      "2022:05:13 18:20:14-04:00", three persons and two chairs. */
  lemma ScenarioMessage(latitude: real, longitude: real)
    ensures var metadata := Metadata.ImageMetadata("IMG01.JPG", "2022:05:13 18:20:14-04:00", latitude, longitude, 0.0);
      BuildTelemetry(7, metadata, 3, 2)
        == TelemetryMessage("7_20220513_182014-0400.JPG", 7.0, 3, 2, "2022:05:13 18:20:14-04:00", latitude, longitude, 0)
  {
    Naming.ScenarioBlobName();
  }
}
