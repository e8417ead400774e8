/**
 Values that a lookup into the time-series document may fail to find: a missing
 region, a missing date, a missing series or a missing counter.
 */
module Optional {

  /** Either nothing was found, or exactly one value was. */
  datatype Option<+T> = None | Some(value: T) {

    /**
     The found value, or the fallback when nothing was found. On an integer
     counter the chart's `x || 0` agrees with `GetOr(0)`, since 0 is the only
     falsy integer.
     */
    function GetOr(fallback: T): T {
      if Some? then value else fallback
    }
  }
}
