/** Configuration constants of the gesture lock and the small numeric helpers the pipeline uses. */
module Common {

  /** A sample as the attempt loop sees it: `None` stands for a NaN magnitude. */
  datatype Option<+T> = None | Some(value: T)

  /** Capacity of each sample buffer (`MAX_SIZE`). */
  const MAX_SIZE: nat := 80
  /** Shortest attempt that may unlock (`min_SIZE`). */
  const MIN_SIZE: nat := 5
  /** An attempt unlocks only with a DTW distance strictly below this. */
  const DTW_THRESHOLD: real := 8.0
  /** Width of the moving-average window (`windowSize`). */
  const WINDOW_SIZE: nat := 5
  /** EEPROM address of the stored signature. */
  const RECORDING_ADDR: int := 0
  /** `sizeof(int)` and `sizeof(float)` on the board's 8-bit AVR target. */
  const INT_SIZE: nat := 2
  const FLOAT_SIZE: nat := 4

  /** `fabs` on the model's real-valued samples. */
  function Abs(x: real): (r: real)
    ensures r >= 0.0 && (r == x || r == -x)
  {
    if x < 0.0 then -x else x
  }

  /** `fmin` on the model's real-valued samples. */
  function Min(x: real, y: real): (r: real)
    ensures r <= x && r <= y && (r == x || r == y)
  {
    if x <= y then x else y
  }

  /** `Min` on counts: a loop bounded by two counts keeps the smaller number of samples. */
  function MinNat(x: nat, y: nat): (r: nat)
    ensures r <= x && r <= y && (r == x || r == y)
  {
    if x <= y then x else y
  }
}
