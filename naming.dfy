/** The names `main` derives for one capture: the normalised timestamp
    (`datetime_str.replace(':', '').replace(' ', '_')`), `str(location_id)`
    and the blob file name `str(location_id) + '_' + timestamp + '.JPG'`. */
module Naming {

  /** `s.replace(c, '')`: every occurrence of `c` deleted. */
  function RemoveAll(s: string, c: char): (r: string)
    ensures c !in r
    ensures |r| <= |s|
  {
    if s == [] then []
    else (if s[0] == c then [] else [s[0]]) + RemoveAll(s[1..], c)
  }

  /** `s.replace(c, d)` for single characters: every `c` becomes `d`. */
  function ReplaceAll(s: string, c: char, d: char): (r: string)
    ensures |r| == |s|
    ensures c != d ==> c !in r
    ensures forall i :: 0 <= i < |s| ==> r[i] == (if s[i] == c then d else s[i])
  {
    if s == [] then []
    else [if s[0] == c then d else s[0]] + ReplaceAll(s[1..], c, d)
  }

  /** The two reassignments of `timestamp` in `main`, in order. */
  function NormalizeTimestamp(dateTime: string): (timestamp: string)
    ensures ':' !in timestamp && ' ' !in timestamp
  {
    var timestamp := RemoveAll(dateTime, ':');
    ReplaceAll(timestamp, ' ', '_')
  }

  /** Deleting distributes over concatenation, so `RemoveAll` keeps every
      other character, in order. */
  lemma {:induction false} RemoveAllAppend(a: string, b: string, c: char)
    ensures RemoveAll(a + b, c) == RemoveAll(a, c) + RemoveAll(b, c)
  {
    if a == [] {
      assert a + b == b;
    } else {
      var head := if a[0] == c then [] else [a[0]];
      assert (a + b)[0] == a[0];
      assert (a + b)[1..] == a[1..] + b;
      RemoveAllAppend(a[1..], b, c);
      calc {
        RemoveAll(a + b, c);
        head + RemoveAll(a[1..] + b, c);
        head + (RemoveAll(a[1..], c) + RemoveAll(b, c));
        (head + RemoveAll(a[1..], c)) + RemoveAll(b, c);
        RemoveAll(a, c) + RemoveAll(b, c);
      }
    }
  }

  lemma {:induction false} RemoveAllAbsent(s: string, c: char)
    requires c !in s
    ensures RemoveAll(s, c) == s
  {
    if s != [] {
      RemoveAllAbsent(s[1..], c);
    }
  }

  lemma ReplaceAllAbsent(s: string, c: char, d: char)
    requires c !in s
    ensures ReplaceAll(s, c, d) == s
  {
  }

  /** Normalisation distributes over concatenation ... */
  lemma {:induction false} NormalizeAppend(a: string, b: string)
    ensures NormalizeTimestamp(a + b) == NormalizeTimestamp(a) + NormalizeTimestamp(b)
  {
    RemoveAllAppend(a, b, ':');
    ReplaceAllAppend(RemoveAll(a, ':'), RemoveAll(b, ':'), ' ', '_');
  }

  lemma ReplaceAllAppend(a: string, b: string, c: char, d: char)
    ensures ReplaceAll(a + b, c, d) == ReplaceAll(a, c, d) + ReplaceAll(b, c, d)
  {
    var l, r := ReplaceAll(a + b, c, d), ReplaceAll(a, c, d) + ReplaceAll(b, c, d);
    assert |l| == |r|;
    forall i | 0 <= i < |l| ensures l[i] == r[i] {
      if i < |a| {
        assert (a + b)[i] == a[i];
      } else {
        assert (a + b)[i] == b[i - |a|];
      }
    }
  }

  /** ... and works character by character: ':' is dropped, ' ' becomes '_',
      every other character is kept. With NormalizeAppend this determines the
      result for every input. */
  lemma NormalizeCharacter(ch: char)
    ensures NormalizeTimestamp([ch]) == if ch == ':' then [] else if ch == ' ' then ['_'] else [ch]
  {
    assert [ch][1..] == [];
  }

  /** Text with no ':' and no ' ', which normalisation leaves as it is. */
  predicate IsPlain(s: string)
  {
    ':' !in s && ' ' !in s
  }

  lemma NormalizeKeepsPlainText(s: string)
    requires IsPlain(s)
    ensures NormalizeTimestamp(s) == s
  {
    RemoveAllAbsent(s, ':');
    ReplaceAllAbsent(s, ' ', '_');
  }

  /** Normalising an already normalised timestamp changes nothing. */
  lemma NormalizeIsIdempotent(dateTime: string)
    ensures NormalizeTimestamp(NormalizeTimestamp(dateTime)) == NormalizeTimestamp(dateTime)
  {
    NormalizeKeepsPlainText(NormalizeTimestamp(dateTime));
  }

  /** The camera's `YYYY:MM:DD HH:MM:SS` followed by a `+HH:MM` offset
      normalises to `YYYYMMDD_HHMMSS+HHMM`: the offset loses its colon too. */
  lemma {:induction false} NormalizeCameraFormat(
    year: string, month: string, day: string,
    hour: string, minute: string, second: string,
    offsetHours: string, offsetMinutes: string)
    requires IsPlain(year) && IsPlain(month) && IsPlain(day)
    requires IsPlain(hour) && IsPlain(minute) && IsPlain(second)
    requires IsPlain(offsetHours) && IsPlain(offsetMinutes)
    ensures NormalizeTimestamp(year + ":" + month + ":" + day + " " + hour + ":" + minute + ":" + second + offsetHours + ":" + offsetMinutes)
         == year + month + day + "_" + hour + minute + second + offsetHours + offsetMinutes
  {
    NormalizeKeepsPlainText(year);
    var raw := year;
    NormalizeThenColon(raw, year);
    NormalizeThenPlain(raw + ":", year, month);
    raw := raw + ":" + month;
    NormalizeThenColon(raw, year + month);
    NormalizeThenPlain(raw + ":", year + month, day);
    raw := raw + ":" + day;
    NormalizeThenSpace(raw, year + month + day);
    NormalizeThenPlain(raw + " ", year + month + day + "_", hour);
    raw := raw + " " + hour;
    var out := year + month + day + "_" + hour;
    NormalizeThenColon(raw, out);
    NormalizeThenPlain(raw + ":", out, minute);
    raw, out := raw + ":" + minute, out + minute;
    NormalizeThenColon(raw, out);
    NormalizeThenPlain(raw + ":", out, second);
    raw, out := raw + ":" + second, out + second;
    NormalizeThenPlain(raw, out, offsetHours);
    raw, out := raw + offsetHours, out + offsetHours;
    NormalizeThenColon(raw, out);
    NormalizeThenPlain(raw + ":", out, offsetMinutes);
  }

  lemma NormalizeThenColon(raw: string, out: string)
    requires NormalizeTimestamp(raw) == out
    ensures NormalizeTimestamp(raw + ":") == out
  {
    NormalizeAppend(raw, ":");
    NormalizeCharacter(':');
    assert out + [] == out;
  }

  lemma NormalizeThenSpace(raw: string, out: string)
    requires NormalizeTimestamp(raw) == out
    ensures NormalizeTimestamp(raw + " ") == out + "_"
  {
    NormalizeAppend(raw, " ");
    NormalizeCharacter(' ');
  }

  lemma NormalizeThenPlain(raw: string, out: string, piece: string)
    requires NormalizeTimestamp(raw) == out
    requires IsPlain(piece)
    ensures NormalizeTimestamp(raw + piece) == out + piece
  {
    NormalizeAppend(raw, piece);
    NormalizeKeepsPlainText(piece);
  }

  /** The example of the source's comment. */
  lemma NormalizeCameraExample()
    ensures NormalizeTimestamp("2022:05:13 18:20:14-04:00") == "20220513_182014-0400"
  {
    var raw := "2022" + ":" + "05" + ":" + "13" + " " + "18" + ":" + "20" + ":" + "14" + "-04" + ":" + "00";
    var out := "2022" + "05" + "13" + "_" + "18" + "20" + "14" + "-04" + "00";
    assert raw == "2022:05:13 18:20:14-04:00";
    assert out == "20220513_182014-0400";
    NormalizeCameraFormat("2022", "05", "13", "18", "20", "14", "-04", "00");
  }

  // ----- str(int) -----

  predicate IsDigit(ch: char)
  {
    '0' <= ch <= '9'
  }

  function DigitChar(d: nat): (ch: char)
    requires d < 10
    ensures IsDigit(ch)
  {
    (('0' as int) + d) as char
  }

  function DigitValue(ch: char): (d: nat)
    requires IsDigit(ch)
    ensures d < 10 && DigitChar(d) == ch
  {
    (ch as int) - ('0' as int)
  }

  /** `str(n)` for a non-negative integer: its decimal digits. */
  function NatToDecimal(n: nat): (s: string)
    ensures |s| >= 1
    ensures forall i :: 0 <= i < |s| ==> IsDigit(s[i])
    ensures n >= 10 ==> s[0] != '0'
  {
    if n < 10 then [DigitChar(n)]
    else NatToDecimal(n / 10) + [DigitChar(n % 10)]
  }

  /** The value of a string of decimal digits: the reading that `float()` and
      `int()` give it back. */
  function DecimalValue(s: string): nat
    requires forall i :: 0 <= i < |s| ==> IsDigit(s[i])
  {
    if s == [] then 0
    else DecimalValue(s[..|s| - 1]) * 10 + DigitValue(s[|s| - 1])
  }

  lemma {:induction false} DecimalRoundTrip(n: nat)
    ensures DecimalValue(NatToDecimal(n)) == n
  {
    if n >= 10 {
      var s := NatToDecimal(n);
      assert s[..|s| - 1] == NatToDecimal(n / 10);
      DecimalRoundTrip(n / 10);
    }
  }

  /** `str(location_id)` for an integer location id. */
  function IntToDecimal(n: int): (s: string)
    ensures |s| >= 1
    ensures forall i :: 1 <= i < |s| ==> IsDigit(s[i])
    ensures '_' !in s && ':' !in s && ' ' !in s && '/' !in s
  {
    if n < 0 then "-" + NatToDecimal(-n) else NatToDecimal(n)
  }

  /** `float(str(n)) == n`: the decimal text of a location id reads back as it. */
  function ParseInt(s: string): int
    requires |s| >= 1
    requires forall i :: 1 <= i < |s| ==> IsDigit(s[i])
    requires s[0] == '-' || IsDigit(s[0])
  {
    if s[0] == '-' then -(DecimalValue(s[1..]) as int) else DecimalValue(s)
  }

  lemma IntToDecimalRoundTrip(n: int)
    ensures var s := IntToDecimal(n);
      (s[0] == '-' || IsDigit(s[0])) && ParseInt(s) == n
  {
    if n < 0 {
      DecimalRoundTrip(-n);
      assert IntToDecimal(n)[1..] == NatToDecimal(-n);
    } else {
      DecimalRoundTrip(n);
    }
  }

  lemma IntToDecimalInjective(a: int, b: int)
    requires IntToDecimal(a) == IntToDecimal(b)
    ensures a == b
  {
    IntToDecimalRoundTrip(a);
    IntToDecimalRoundTrip(b);
  }

  // ----- the blob file name -----

  /** `str(location_id) + '_' + timestamp + '.JPG'`. */
  function BlobName(locationId: int, timestamp: string): (name: string)
  {
    IntToDecimal(locationId) + "_" + timestamp + ".JPG"
  }

  /** The name `main` derives from a location id and the raw camera datetime. */
  function DeriveBlobName(locationId: int, dateTime: string): (name: string)
  {
    BlobName(locationId, NormalizeTimestamp(dateTime))
  }

  /** Location 7 and the camera example give "7_20220513_182014-0400.JPG". */
  lemma ScenarioBlobName()
    ensures DeriveBlobName(7, "2022:05:13 18:20:14-04:00") == "7_20220513_182014-0400.JPG"
  {
    NormalizeCameraExample();
    BlobNameSeven("20220513_182014-0400");
  }

  lemma BlobNameSeven(timestamp: string)
    requires timestamp == "20220513_182014-0400"
    ensures BlobName(7, timestamp) == "7_20220513_182014-0400.JPG"
  {
    assert IntToDecimal(7) == "7";
    assert "7" + "_" + "20220513_182014-0400" + ".JPG" == "7_20220513_182014-0400.JPG";
  }

  /** The blob name ends in ".JPG" and carries no ':' or ' ' once the
      timestamp is normalised. */
  lemma DerivedBlobNameShape(locationId: int, dateTime: string)
    ensures var name := DeriveBlobName(locationId, dateTime);
      && |name| >= 6
      && name[|name| - 4..] == ".JPG"
      && ':' !in name && ' ' !in name
  {
    var d, t := IntToDecimal(locationId), NormalizeTimestamp(dateTime);
    var name := d + "_" + t + ".JPG";
    assert forall i :: 0 <= i < |name| ==> name[i] in d || name[i] == '_' || name[i] in t || name[i] in ".JPG";
  }

  /** The location id ends at the first '_' of a blob name. */
  lemma {:induction false} FirstUnderscore(locationId: int, timestamp: string)
    ensures var name := BlobName(locationId, timestamp);
      var k := |IntToDecimal(locationId)|;
      && k < |name| && name[k] == '_'
      && (forall i :: 0 <= i < k ==> name[i] != '_')
      && name[..k] == IntToDecimal(locationId)
      && name[k + 1..|name| - 4] == timestamp
  {
    var d := IntToDecimal(locationId);
    var name := BlobName(locationId, timestamp);
    assert name == d + ("_" + timestamp + ".JPG");
    forall i | 0 <= i < |d| ensures name[i] != '_' {
      assert name[i] == d[i];
    }
  }

  /** Distinct (location id, timestamp) pairs give distinct blob names, so the
      name determines both; equal pairs trivially give equal names. */
  lemma {:induction false} BlobNameInjective(l1: int, t1: string, l2: int, t2: string)
    requires BlobName(l1, t1) == BlobName(l2, t2)
    ensures l1 == l2 && t1 == t2
  {
    FirstUnderscore(l1, t1);
    FirstUnderscore(l2, t2);
    var name := BlobName(l1, t1);
    assert |IntToDecimal(l1)| == |IntToDecimal(l2)|;
    IntToDecimalInjective(l1, l2);
  }
}
