/**
 * Runtime values (src/lox_value.rs).
 *
 * A 64-bit float is kept symbolic: `F64` is the free term algebra over
 * float literals and the five IEEE operations the VM uses, so no
 * floating-point fact is assumed, and the result of an arithmetic
 * instruction records which operation was applied to which operands in
 * which order.
 */
module Values {

  datatype F64 =
    | Float(value: real)
    | Sum(left: F64, right: F64)
    | Difference(left: F64, right: F64)
    | Product(left: F64, right: F64)
    | Quotient(left: F64, right: F64)
    | Negation(operand: F64)

  /** `LoxValue`: only the `Number` variant exists. */
  datatype LoxValue = Number(num: F64)

  /** `LoxValue::default()`, used to fill a fresh stack (src/lox_value.rs derives no `Default` for `LoxValue`; taken as zero). */
  function Default(): LoxValue
  {
    Number(Float(0.0))
  }

  /** `From<f64> for LoxValue`. */
  function FromF64(value: F64): (v: LoxValue)
    ensures v.num == value
  {
    Number(value)
  }
}
