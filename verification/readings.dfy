/** How both build scripts show a contaminant's result: the placeholder `<${mrl}`
    for a below-reporting-limit sample, otherwise the number itself. */
module Readings {
  import opened Js

  /** The `value` of a contaminant entry. `LessThan(m)` stands for the string `<${m}`;
      `Raw(v)` for the number `v`. `None` stands for NaN or SQL NULL; how a number
      prints inside the template is not part of this model. */
  datatype Display = LessThan(mrl: Option<real>) | Raw(v: Option<real>)

  /** `result_sign === '='`. */
  predicate Detected(sign: Field) {
    sign == Some("=")
  }

  /** `result_sign === '<' ? `<${mrl}` : value`. */
  function Shown(sign: Field, value: Option<real>, mrl: Option<real>): (d: Display)
    ensures d.LessThan? <==> sign == Some("<")
    ensures d.LessThan? ==> d.mrl == mrl
    ensures sign != Some("<") ==> d == Raw(value)
  {
    if sign == Some("<") then LessThan(mrl) else Raw(value)
  }
}
