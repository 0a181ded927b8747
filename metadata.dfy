/** The metadata step of `captureImageAndExtractMetadata`: reading the GPS
    and date tags of the captured image and composing the five-element
    metadata list. The camera capture and the EXIF parser are not modelled;
    the parsed tags arrive as a record in which a tag the image lacks is
    `None` (the `exif` library raises AttributeError when it is read). */
module Metadata {
  import opened Wrappers
  import Gps

  /** The EXIF tags the code reads, `None` where the image lacks the tag. */
  datatype ExifTags = ExifTags(
    gpsLatitude: Option<Gps.Dms>,
    gpsLatitudeRef: Option<string>,
    gpsLongitude: Option<Gps.Dms>,
    gpsLongitudeRef: Option<string>,
    gpsAltitude: Option<real>,
    datetimeOriginal: Option<string>,
    offsetTime: Option<string>)

  /** The list `[file name, datetime, latitude, longitude, altitude]`. */
  datatype ImageMetadata = ImageMetadata(
    fileName: string,
    dateTime: string,
    latitude: real,
    longitude: real,
    altitude: real)

  /** The AttributeError raised, outside any `try`, when a date tag is missing. */
  datatype MetadataError = MissingDateTag

  /** True when reading the five GPS tags raises no AttributeError. */
  predicate HasGpsTags(tags: ExifTags)
  {
    && tags.gpsLatitude.Some? && tags.gpsLatitudeRef.Some?
    && tags.gpsLongitude.Some? && tags.gpsLongitudeRef.Some?
    && tags.gpsAltitude.Some?
  }

  /** The `try` block over the GPS tags and its `except AttributeError`
      fallback, giving (latitude, longitude, altitude). A missing tag anywhere
      in the block discards values already computed: all three become 0. */
  function GpsOrFallback(tags: ExifTags): (gps: (real, real, real))
    ensures !HasGpsTags(tags) ==> gps == (0.0, 0.0, 0.0)
  {
    if !HasGpsTags(tags) then (0.0, 0.0, 0.0)
    else
      var latitude := Gps.DecimalDegrees(tags.gpsLatitude.value, tags.gpsLatitudeRef.value);
      var longitude := Gps.DecimalDegrees(tags.gpsLongitude.value, tags.gpsLongitudeRef.value);
      (latitude, longitude, tags.gpsAltitude.value)
  }

  /** The metadata list built from the captured file name and its tags, or the
      error that escapes when `datetime_original` or `offset_time` is missing. */
  function ExtractMetadata(fileName: string, tags: ExifTags): (r: Result<ImageMetadata, MetadataError>)
    ensures r.Success? <==> tags.datetimeOriginal.Some? && tags.offsetTime.Some?
    ensures r.Success? ==> r.value.fileName == fileName
  {
    var (latitude, longitude, altitude) := GpsOrFallback(tags);
    if tags.datetimeOriginal.None? || tags.offsetTime.None? then Failure(MissingDateTag)
    else
      var datetimeMetadata := tags.datetimeOriginal.value + tags.offsetTime.value;
      Success(ImageMetadata(fileName, datetimeMetadata, latitude, longitude, altitude))
  }

  /** The datetime field is the plain concatenation of the two date tags,
      with no separator and no reformatting. */
  lemma DateTimeIsConcatenation(fileName: string, tags: ExifTags)
    requires tags.datetimeOriginal.Some? && tags.offsetTime.Some?
    ensures var r := ExtractMetadata(fileName, tags);
      && r.Success?
      && |r.value.dateTime| == |tags.datetimeOriginal.value| + |tags.offsetTime.value|
      && r.value.dateTime[..|tags.datetimeOriginal.value|] == tags.datetimeOriginal.value
      && r.value.dateTime[|tags.datetimeOriginal.value|..] == tags.offsetTime.value
  {
  }

  /** A missing GPS tag zeroes latitude, longitude and altitude together, and
      does not stop the metadata from being produced. */
  lemma MissingGpsTagZeroesAllThree(fileName: string, tags: ExifTags)
    requires !HasGpsTags(tags)
    requires tags.datetimeOriginal.Some? && tags.offsetTime.Some?
    ensures var r := ExtractMetadata(fileName, tags);
      r.Success? && r.value.latitude == 0.0 && r.value.longitude == 0.0 && r.value.altitude == 0.0
  {
  }

  /** The fallback is driven by missing tags only: when all tags are present,
      a malformed latitude is zeroed by the conversion itself and longitude
      and altitude keep their values. */
  lemma MalformedLatitudeZeroesOnlyLatitude(fileName: string, tags: ExifTags)
    requires HasGpsTags(tags) && !Gps.Summable(tags.gpsLatitude.value)
    requires tags.datetimeOriginal.Some? && tags.offsetTime.Some?
    ensures var r := ExtractMetadata(fileName, tags);
      && r.Success?
      && r.value.latitude == 0.0
      && r.value.longitude == Gps.DecimalDegrees(tags.gpsLongitude.value, tags.gpsLongitudeRef.value)
      && r.value.altitude == tags.gpsAltitude.value
  {
  }

  /** With every tag present, the list carries the converted coordinates and
      the altitude tag unchanged, in the order of the list. */
  lemma CompleteTagsAreConverted(fileName: string, tags: ExifTags)
    requires HasGpsTags(tags)
    requires tags.datetimeOriginal.Some? && tags.offsetTime.Some?
    ensures ExtractMetadata(fileName, tags) == Success(ImageMetadata(
      fileName,
      tags.datetimeOriginal.value + tags.offsetTime.value,
      Gps.DecimalDegrees(tags.gpsLatitude.value, tags.gpsLatitudeRef.value),
      Gps.DecimalDegrees(tags.gpsLongitude.value, tags.gpsLongitudeRef.value),
      tags.gpsAltitude.value))
  {
  }
}
