/**
 * The numeric types of the command-line record and the library conversions
 * that fill them. The conversions `std::stoi`, `std::stod` and `std::stoull`
 * are not modelled in detail: they are supplied by the caller as partial
 * functions, `None` standing for the call throwing.
 */
module Numbers {
  import opened Wrappers

  /** A C++ `int` on the platforms the program targets (32 bits, two's complement). */
  type Int32 = x: int | -0x8000_0000 <= x < 0x8000_0000

  /** A C++ `unsigned long long` (64 bits). */
  type ULong = x: int | 0 <= x < 0x1_0000_0000_0000_0000

  /** A C++ `double`: a finite value, a signed infinity, or not-a-number. */
  datatype Float64 = Finite(value: real) | Infinity(negative: bool) | NaN

  /** The C++ comparison `x < y` on doubles: false whenever either side is NaN. */
  predicate Less(x: Float64, y: Float64)
  {
    match (x, y)
    case (NaN, _) => false
    case (_, NaN) => false
    case (Finite(u), Finite(v)) => u < v
    case (Finite(_), Infinity(negative)) => !negative
    case (Infinity(negative), Finite(_)) => negative
    case (Infinity(n1), Infinity(n2)) => n1 && !n2
  }

  /**
   * The C++ comparison `d > 0`: true for positive finite values and positive
   * infinity, false for zero, negatives and NaN.
   */
  predicate IsPositive(d: Float64)
    ensures IsPositive(d) <==> (d.Finite? && d.value > 0.0) || d == Infinity(false)
  {
    Less(Finite(0.0), d)
  }

  /**
   * The three string-to-number conversions used by the parser. Each maps the
   * token to its value, or to `None` where the library call would throw
   * (`std::invalid_argument` or `std::out_of_range`).
   */
  datatype Converters = Converters(
    stoi: string -> Option<Int32>,
    stod: string -> Option<Float64>,
    stoull: string -> Option<ULong>)
}
