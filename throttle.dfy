/**
  The throttle of video_creator.py: the `--throttle` argument check
  (`throttle_range`), the per-batch window computed from it and the wait after
  each video.
*/
module Throttle {
  import opened Wrappers

  /** Lowest and highest throttle (videos per hour) the usage message names. */
  const MinThrottle: int := 1
  const MaxThrottle: int := 30

  /**
    `throttle_range` as written: the rejection test `30 < ivalue < 1` is a
    chained comparison no integer satisfies, so every value comes back unchanged.
  */
  function ThrottleRange(ivalue: int): (r: Result<int, string>)
    ensures r == Success(ivalue)
  {
    if 30 < ivalue < 1 then
      Failure("invalid throttle range. (Valid value is between 30 and 1 videos per hour")
    else Success(ivalue)
  }

  /** Values outside 1..30 that the argument check lets through. */
  lemma OutOfRangeThrottlesAccepted()
    ensures ThrottleRange(0) == Success(0)
    ensures ThrottleRange(31) == Success(31)
    ensures ThrottleRange(-5) == Success(-5)
  {
  }

  /** The check the error message describes: reject anything outside 1..30. */
  function ThrottleRangeIntended(ivalue: int): (r: Result<int, string>)
    ensures r.Success? <==> MinThrottle <= ivalue <= MaxThrottle
    ensures r.Success? ==> r.value == ivalue
  {
    if ivalue > MaxThrottle || ivalue < MinThrottle then
      Failure("invalid throttle range. (Valid value is between 30 and 1 videos per hour")
    else Success(ivalue)
  }

  /**
    Seconds of throttling spread over one batch. Below 30 videos per hour each
    video is taken to need two minutes of processing, and the window is what is
    left of the hour; from 30 on it is a fixed twenty minutes.
  */
  function ThrottleWindow(throttle: int): (seconds: int)
    ensures seconds > 0
    ensures throttle < 30 ==> seconds + throttle * 120 == 3600
    ensures throttle >= 30 ==> seconds == 1200
  {
    if throttle < 30 then (60 - throttle * 2) * 60 else 1200
  }

  lemma ThrottleWindowExamples()
    ensures ThrottleWindow(1) == 3480
    ensures ThrottleWindow(20) == 1200
    ensures ThrottleWindow(30) == 1200
  {
  }

  /**
    A faster throttle never lengthens the window within the accepted range
    below 30; at 30 the window jumps back to 1200 seconds.
  */
  lemma {:induction false} WindowShrinksWithThrottle(a: int, b: int)
    requires a <= b < 30
    ensures ThrottleWindow(b) <= ThrottleWindow(a)
  {
  }

  /**
    `throttle_value / int(len(videos))`: Python 2 integer division, which
    rounds toward negative infinity; with a positive count it agrees with
    Dafny's division. The count is at least one wherever the source divides,
    since the division sits inside the loop over the videos.
  */
  function PerVideoDelay(window: int, videoCount: int): (seconds: int)
    requires videoCount >= 1
    ensures seconds * videoCount <= window < (seconds + 1) * videoCount
    ensures window >= 0 ==> seconds >= 0
  {
    window / videoCount
  }

  /**
    The batch sleeps once after every video, the last one included, so its
    total throttle wait fits in the window and misses it by less than one
    second per video.
  */
  lemma BatchWaitFitsWindow(throttle: int, videoCount: int)
    requires videoCount >= 1
    ensures var wait := videoCount * PerVideoDelay(ThrottleWindow(throttle), videoCount);
            0 <= wait <= ThrottleWindow(throttle) < wait + videoCount
  {
    var window := ThrottleWindow(throttle);
    var d := PerVideoDelay(window, videoCount);
    assert videoCount * d == d * videoCount;
    assert (d + 1) * videoCount == d * videoCount + videoCount;
    assert d * videoCount >= 0;
  }

  /** Within the intended range below 30, the window is the hour less two minutes per video. */
  lemma {:induction false} AcceptedThrottleWindow(ivalue: int)
    requires ThrottleRangeIntended(ivalue).Success? && ivalue < 30
    ensures 120 <= ThrottleWindow(ivalue) <= 3480
  {
  }
}
