/** Cell values of a loaded table and the optional-value wrapper. */
module Values {

  datatype Option<T> = None | Some(value: T)

  /** A table cell. Sheets deliver `Text`; cleaning turns some columns into
      `Number`s; the date pass adds a `Date` column (a day number); `Null`
      stands for pandas' missing value (None, NaN, NaT). */
  datatype Value = Text(s: string) | Number(x: real) | Date(day: int) | Null

  /** `str(v)` for the cells the pipeline renders as text (`astype(str)` and
      `str(orden)`). Those cells are always freshly read text; the printed
      forms of numbers and timestamps are not modelled and render as "". */
  function AsText(v: Value): (r: string)
    ensures v.Text? ==> r == v.s
  {
    match v
    case Text(s) => s
    case Null => "nan"
    case _ => ""
  }

  // Facts about real multiplication and division, kept apart so that each
  // nonlinear step is proved in a small context.

  lemma DivTimes(x: real, m: real)
    requires m != 0.0
    ensures (x / m) * m == x
  {
  }

  lemma PositiveProduct(a: real, m: real)
    requires m > 0.0
    ensures a > 0.0 <==> a * m > 0.0
  {
  }
}
