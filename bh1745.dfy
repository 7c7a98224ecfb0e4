/** The BH1745 colour sensor's measurement times and their length in milliseconds. */
module Bh1745Times {
  import opened Wrappers
  import opened Powers

  /**
   * `MeasurementTime`: the six times the sensor supports, and any other numeric value a cast
   * can put into the enumeration.
   */
  datatype MeasurementTime = Ms160 | Ms320 | Ms640 | Ms1280 | Ms2560 | Ms5120 | Unlisted(value: int)

  /** An ArgumentOutOfRangeException. */
  datatype TimeError = OutOfRange

  /** The six listed times in order, shortest first. */
  function Listed(k: nat): (t: MeasurementTime)
    requires k < 6
  {
    [Ms160, Ms320, Ms640, Ms1280, Ms2560, Ms5120][k]
  }

  /** ToMilliseconds: the listed times map to their length; anything else throws. */
  function ToMilliseconds(time: MeasurementTime): (r: Result<int, TimeError>)
    ensures r.Err? <==> time.Unlisted?
    ensures r.Ok? ==> 160 <= r.value <= 5120 && r.value % 160 == 0
  {
    match time
    case Ms160 => Ok(160)
    case Ms320 => Ok(320)
    case Ms640 => Ok(640)
    case Ms1280 => Ok(1280)
    case Ms2560 => Ok(2560)
    case Ms5120 => Ok(5120)
    case Unlisted(_) => Err(OutOfRange)
  }

  /** The k-th listed time lasts 160 * 2^k ms: each is double the one before. */
  lemma {:induction false} DoublingTimes(k: nat)
    requires k < 6
    ensures ToMilliseconds(Listed(k)) == Ok(160 * Pow2(k))
    ensures k > 0 ==> ToMilliseconds(Listed(k)).value == 2 * ToMilliseconds(Listed(k - 1)).value
  {
    if k > 0 {
      DoublingTimes(k - 1);
    }
  }

  /** Different times have different lengths, so a length identifies its time. */
  lemma LengthsDistinct(s: MeasurementTime, t: MeasurementTime)
    requires ToMilliseconds(s).Ok? && ToMilliseconds(s) == ToMilliseconds(t)
    ensures s == t
  {
  }
}
