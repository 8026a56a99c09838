/**
 Byte counts a storage node reports for a download. One number carries both the
 count and whether the stream is over: 0 and the full length are final, a smaller
 count is progress, and a partial final count is shifted past the full length.
 */
module DownloadReports {
  import opened Basics

  datatype Report = Progress(bytes: int) | Final(bytes: int) | Malformed

  /** `None` stands for a rejected pair. */
  function Encode(expected: int, actual: int): Option<int> {
    if expected <= 0 || actual <= 0 || actual >= expected || expected > (MAX_INT64 - 1) / 2
      || actual > MAX_INT64 - expected - 1
    then None else Some(expected + 1 + actual)
  }

  function Decode(expected: int, reported: int): Report {
    if expected <= 0 || reported < 0 then Malformed
    else if reported == 0 || reported == expected then Final(reported)
    else if reported < expected then Progress(reported)
    else if expected > (MAX_INT64 - 1) / 2 || reported <= expected || reported > expected * 2 then Malformed
    else
      var actual := reported - expected - 1;
      if actual <= 0 || actual >= expected then Malformed else Final(actual)
  }

  /** Every legal pair round-trips as a final count, and the code fits 64 bits. */
  lemma EncodeRoundTrips(expected: int, actual: int)
    requires 0 < actual < expected <= (MAX_INT64 - 1) / 2
    ensures Encode(expected, actual).Some?
    ensures expected + 2 <= Encode(expected, actual).value <= 2 * expected <= MAX_INT64
    ensures Decode(expected, Encode(expected, actual).value) == Final(actual)
  {
  }

  /** The encoder is onto the values from expected+2 to 2*expected, and decoding inverts it. */
  lemma EncodeIsOnto(expected: int, reported: int)
    requires 0 < expected <= (MAX_INT64 - 1) / 2 && expected + 2 <= reported <= 2 * expected
    ensures Decode(expected, reported).Final?
    ensures Encode(expected, Decode(expected, reported).bytes) == Some(reported)
  {
  }

  /** A count is encoded exactly when it is partial and the code fits 64 bits. */
  lemma EncodesExactly(expected: int, actual: int)
    ensures Encode(expected, actual).Some? <==> 0 < actual < expected <= (MAX_INT64 - 1) / 2
    ensures Encode(expected, actual).Some? ==> Encode(expected, actual).value == expected + 1 + actual
  {
  }

  /** What every report means, for every expected length: none is both progress and final. */
  lemma ReportRanges(expected: int, reported: int)
    ensures Decode(expected, reported).Progress? <==> 0 < reported < expected
    ensures Decode(expected, reported).Final? <==>
      && expected > 0
      && (|| reported == 0 || reported == expected
          || (expected <= (MAX_INT64 - 1) / 2 && expected + 2 <= reported <= 2 * expected))
    ensures var d := Decode(expected, reported);
      && (d.Progress? ==> d.bytes == reported)
      && (d.Final? ==> d.bytes == (if reported <= expected then reported else reported - expected - 1))
      && (!d.Malformed? ==> 0 <= d.bytes <= expected)
  {
  }
}
