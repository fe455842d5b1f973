/** A cumulative volume curve rising linearly from 0 at its start to 1 at its end. */
module LinearProfiles {

  /** Start and end are epoch milliseconds. */
  datatype LinearProfile = LinearProfile(startTime: int, endTime: int)
  {
    /** Fraction of the day's volume expected to have traded by `time`. */
    function GetVolume(time: int): (r: real)
      ensures 0.0 <= r <= 1.0
      ensures time <= startTime ==> r == 0.0
      ensures startTime < time && endTime <= time ==> r == 1.0
      ensures startTime < time < endTime ==>
                0.0 < r < 1.0 && r * (endTime - startTime) as real == (time - startTime) as real
    {
      if time <= startTime then 0.0
      else if time >= endTime then 1.0
      else (time - startTime) as real / (endTime - startTime) as real
    }
  }

  /** The curve never decreases over time. */
  lemma GetVolumeMonotone(p: LinearProfile, t1: int, t2: int)
    requires t1 <= t2
    ensures p.GetVolume(t1) <= p.GetVolume(t2)
  {
    if p.startTime < t1 && t2 < p.endTime {
      var d := (p.endTime - p.startTime) as real;
      var a, b := (t1 - p.startTime) as real, (t2 - p.startTime) as real;
      assert p.GetVolume(t1) == a / d && p.GetVolume(t2) == b / d;
      assert a / d <= b / d by {
        assert b / d - a / d == (b - a) / d;
      }
    }
  }

  /** Half-way through the window, half of the volume is expected. */
  lemma GetVolumeMidpoint(p: LinearProfile, time: int)
    requires p.startTime < p.endTime
    requires 2 * (time - p.startTime) == p.endTime - p.startTime
    ensures p.GetVolume(time) == 0.5
  {
  }
}
