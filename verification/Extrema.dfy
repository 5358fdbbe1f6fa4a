/** The smaller and the larger of two numbers. */
module Extrema {
  function Min(x: real, y: real): real {
    if y < x then y else x
  }

  function Max(x: real, y: real): real {
    if y > x then y else x
  }

  function MaxInt(x: int, y: int): int {
    if y > x then y else x
  }
}
