/** The `Math.max` and `Math.min` of two lengths. */
module Numbers {

  function Max(a: real, b: real): real { if a >= b then a else b }

  function Min(a: real, b: real): real { if a <= b then a else b }
}
