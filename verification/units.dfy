/** The `Units` table of the extension: millimetres, inches and the conversion between them. */
module Units {

  /** `Units.MILLIMETERS` (1) and `Units.INCHES` (2). */
  datatype Unit = Millimeters | Inches

  const MmPerInch: real := 25.4

  /** `Units.convert(value, from, to)`. */
  function Convert(value: real, from: Unit, to: Unit): (r: real)
    ensures r == value * Factor(from, to)
  {
    if from == to then value
    else if from == Millimeters && to == Inches then value / MmPerInch
    else value * MmPerInch
  }

  /** How many `to` units one `from` unit is worth. */
  function Factor(from: Unit, to: Unit): real {
    if from == to then 1.0
    else if from == Millimeters then 1.0 / MmPerInch
    else MmPerInch
  }

  /** Converting there and back is the identity: `/25.4` and `*25.4` are inverse. */
  lemma ConvertRoundTrip(value: real, a: Unit, b: Unit)
    ensures Convert(Convert(value, a, b), b, a) == value
  {
  }

  /** Conversion is linear, so sums and differences convert term by term. */
  lemma ConvertAdditive(v: real, w: real, a: Unit, b: Unit)
    ensures Convert(v + w, a, b) == Convert(v, a, b) + Convert(w, a, b)
  {
  }
}
