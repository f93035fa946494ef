/** Which metric values are acceptable (telemetry.py and performance.py). */
module Telemetry {

  /** The largest finite float32, which the source's literal denotes exactly. */
  const FLOAT32_MAX: real := 340282346638528859811704183484516925440.0

  /** nvidia.gpm percentages lie in 0..100, rates below the float32 maximum (performance.py, lines 24-27). */
  predicate InRange(value: real, rate: bool) { 0.0 <= value <= if rate then FLOAT32_MAX else 100.0 }
}
