/** Timestamps as the tools exchange them: 64-bit counts of a rational time base. */
module Timestamps {

  const AV_NOPTS_VALUE: int := -0x8000_0000_0000_0000
  const INT64_MAX: int := 0x7FFF_FFFF_FFFF_FFFF

  type Positive = n: nat | n > 0 witness 1

  datatype TimeBase = TimeBase(num: Positive, den: Positive)

  /** The point in time that `ts` ticks of `tb` stand for. `av_compare_ts` compares these. */
  function Seconds(ts: int, tb: TimeBase): real {
    ts as real * tb.num as real / tb.den as real
  }
}
