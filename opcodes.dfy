/** The instruction set and its one-byte encoding (src/opcodes.rs). */
module Opcodes {
  import opened Wrappers

  type u8 = x: int | 0 <= x < 256

  /** `u8::MAX`. */
  const U8_MAX: u8 := 255

  /** `Op`, a `#[repr(u8)]` enum: discriminants follow declaration order. */
  datatype Op = ConstantSmall | Add | Subtract | Multiply | Divide | Negate | Ret

  /** The error `TryFromPrimitive` reports, carrying the rejected byte. */
  datatype TryFromPrimitiveError = TryFromPrimitiveError(number: u8)

  /** `From<Op> for u8` (and `op as u8`): the discriminant. */
  function ToU8(op: Op): (b: u8)
    ensures b < 7
  {
    match op
    case ConstantSmall => 0
    case Add => 1
    case Subtract => 2
    case Multiply => 3
    case Divide => 4
    case Negate => 5
    case Ret => 6
  }

  /** `Op::try_from_primitive`, derived by `num_enum`: defined exactly on the discriminants. */
  function TryFromPrimitive(b: u8): (r: Result<Op, TryFromPrimitiveError>)
    ensures r.Ok? <==> b < 7
    ensures r.Ok? ==> ToU8(r.value) == b
    ensures r.Err? ==> r.error.number == b
  {
    match b
    case 0 => Ok(ConstantSmall)
    case 1 => Ok(Add)
    case 2 => Ok(Subtract)
    case 3 => Ok(Multiply)
    case 4 => Ok(Divide)
    case 5 => Ok(Negate)
    case 6 => Ok(Ret)
    case _ => Err(TryFromPrimitiveError(b))
  }

  /** Decoding inverts encoding on every opcode. */
  lemma DecodeEncode(op: Op)
    ensures TryFromPrimitive(ToU8(op)) == Ok(op)
  {
  }

  /** The discriminants are 0 to 6 in declaration order. */
  lemma Discriminants()
    ensures ToU8(ConstantSmall) == 0 && ToU8(Add) == 1 && ToU8(Subtract) == 2
    ensures ToU8(Multiply) == 3 && ToU8(Divide) == 4 && ToU8(Negate) == 5 && ToU8(Ret) == 6
  {
  }

  /** Encoding is injective, so a byte names at most one opcode. */
  lemma EncodingInjective(a: Op, b: Op)
    ensures ToU8(a) == ToU8(b) ==> a == b
  {
    if ToU8(a) == ToU8(b) {
      DecodeEncode(a);
      DecodeEncode(b);
    }
  }

  /** `Op::operand_count`: only the constant load carries an operand byte. */
  function OperandCount(op: Op): (n: nat)
    ensures n <= 1
    ensures n == 1 <==> op == ConstantSmall
  {
    match op
    case Ret => 0
    case Add | Subtract | Multiply | Divide | Negate => 0
    case ConstantSmall => 1
  }

  /** `Display for Op`: the mnemonic. */
  function Mnemonic(op: Op): (s: string)
    ensures |s| > 3 && s[..3] == "OP_"
  {
    match op
    case Ret => "OP_RETURN"
    case Add => "OP_ADD"
    case Subtract => "OP_SUBTRACT"
    case Multiply => "OP_MULTIPLY"
    case Divide => "OP_DIVIDE"
    case Negate => "OP_NEGATE"
    case ConstantSmall => "OP_CONSTANT_SMALL"
  }

  /** Distinct opcodes print distinct mnemonics. */
  lemma MnemonicsDistinct(a: Op, b: Op)
    ensures a != b ==> Mnemonic(a) != Mnemonic(b)
  {
  }
}
