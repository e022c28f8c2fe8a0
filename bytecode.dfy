/**
 * The bytecode unit and its disassembler (src/bytecode.rs). The `Bytecode`
 * struct in src/bytecode.rs holds only `bytes`; the line table, the constant pool, the
 * `finished_compilation` flag and the accessors `write_u8`,
 * `add_constant`, `get_constant` and `get_base_ip` are reconstructed from
 * their call sites in src/bytecode_compiler.rs, src/vm.rs and src/main.rs.
 */
module Bytecodes {
  import opened Wrappers
  import opened Opcodes
  import opened Values

  /** An instruction cursor: an offset into a unit's bytes. */
  datatype Ip = Ip(offset: nat)

  /** `Ip::get_u8`: the byte under the cursor. */
  function GetU8(ip: Ip, bytes: seq<u8>): (b: u8)
    requires ip.offset < |bytes|
    ensures b == bytes[ip.offset]
  {
    bytes[ip.offset]
  }

  /** `Ip::get_op`: the byte under the cursor, decoded. */
  function GetOp(ip: Ip, bytes: seq<u8>): (op: Op)
    requires ip.offset < |bytes| && TryFromPrimitive(bytes[ip.offset]).Ok?
    ensures ToU8(op) == GetU8(ip, bytes)
  {
    TryFromPrimitive(bytes[ip.offset]).value
  }

  /** `Ip::inc`. */
  function Inc(ip: Ip, k: nat): (r: Ip)
    ensures r.offset == ip.offset + k
  {
    Ip(ip.offset + k)
  }

  // ----- Text of the disassembly -----

  function DigitChar(d: nat): char
    requires d < 10
  {
    "0123456789"[d]
  }

  /** Decimal digits of `n`, most significant first. */
  function Decimal(n: nat): (s: string)
    ensures 1 <= |s|
    ensures forall i | 0 <= i < |s| :: '0' <= s[i] <= '9'
  {
    if n < 10 then [DigitChar(n)] else Decimal(n / 10) + [DigitChar(n % 10)]
  }

  function Zeros(k: nat): (s: string)
    ensures |s| == k && forall i | 0 <= i < k :: s[i] == '0'
  {
    seq(k, _ => '0')
  }

  /** `format!("{:04}", n)`: decimal, zero-padded to at least four characters. */
  function ZeroPadded4(n: nat): (s: string)
    ensures |s| == if |Decimal(n)| < 4 then 4 else |Decimal(n)|
    ensures s[|s| - |Decimal(n)|..] == Decimal(n)
    ensures forall i | 0 <= i < |s| - |Decimal(n)| :: s[i] == '0'
  {
    var d := Decimal(n);
    if |d| < 4 then Zeros(4 - |d|) + d else d
  }

  /** `format!("== {} ==\n", name)`. */
  function Header(name: string): string
  {
    "== " + name + " ==\n"
  }

  /** `format!("{:04} {}", op_index, op)`: note there is no line break. */
  function InstructionLine(offset: nat, op: Op): string
  {
    ZeroPadded4(offset) + " " + Mnemonic(op)
  }

  /** `format!("{:04} {} ", op_index, "Illegal Instruction")`. */
  function IllegalLine(offset: nat): string
  {
    ZeroPadded4(offset) + " Illegal Instruction "
  }

  /** The lines the loop has pushed for offsets `0 .. k-1`, all naming `op`. */
  function Listing(op: Op, k: nat): (s: string)
    ensures |s| == 0 <==> k == 0
  {
    if k == 0 then "" else Listing(op, k - 1) + InstructionLine(k - 1, op)
  }

  /**
   * What the loop has appended after the header once `op_index` is `k`.
   * Every step decodes `bytes[0]`, not `bytes[op_index]`.
   */
  function Body(bytes: seq<u8>, k: nat): (s: string)
    requires 0 < k ==> 0 < |bytes|
    ensures |s| == 0 <==> k == 0
    ensures 0 < k && TryFromPrimitive(bytes[0]).Err? ==> s == IllegalLine(|bytes|)
  {
    if k == 0 then ""
    else match TryFromPrimitive(bytes[0])
      case Ok(op) => Listing(op, k)
      case Err(_) => IllegalLine(|bytes|)
  }

  /** The whole text `disassemble` returns. */
  function Disassembly(bytes: seq<u8>, name: string): (s: string)
    ensures |Header(name)| <= |s| && s[..|Header(name)|] == Header(name)
    ensures s == Header(name) <==> |bytes| == 0
  {
    Header(name) + Body(bytes, |bytes|)
  }

  /** Concatenation of a sequence of strings. */
  function Concat(parts: seq<string>): string
  {
    if |parts| == 0 then "" else Concat(parts[..|parts| - 1]) + parts[|parts| - 1]
  }

  /** The lines for offsets `0 .. k-1`, each naming `op`. */
  function Lines(op: Op, k: nat): (ls: seq<string>)
    ensures |ls| == k && forall i | 0 <= i < k :: ls[i] == InstructionLine(i, op)
  {
    seq(k, i requires 0 <= i => InstructionLine(i, op))
  }

  /** The listing is exactly one line per offset `0 .. k-1`, each with the same mnemonic. */
  lemma {:induction false} ListingLines(op: Op, k: nat)
    ensures Listing(op, k) == Concat(Lines(op, k))
  {
    if k > 0 {
      ListingLines(op, k - 1);
      var lines := Lines(op, k);
      assert lines[..k - 1] == Lines(op, k - 1);
    }
  }

  /** Regrouping appended text; the loop of `disassemble` needs it to stay within its resource budget. */
  lemma AppendAssoc(a: string, b: string, c: string)
    ensures (a + b) + c == a + (b + c)
  {
  }

  /** One more turn of the loop over a valid first byte appends the line for offset `k`. */
  lemma BodyStep(bytes: seq<u8>, k: nat, op: Op)
    requires k < |bytes| && TryFromPrimitive(bytes[0]) == Ok(op)
    ensures Body(bytes, k + 1) == Body(bytes, k) + InstructionLine(k, op)
  {
  }

  /** The loop's only turn over an invalid first byte appends the illegal-instruction line. */
  lemma BodyIllegal(bytes: seq<u8>)
    requires 0 < |bytes| && TryFromPrimitive(bytes[0]).Err?
    ensures Body(bytes, 0) == "" && Body(bytes, |bytes|) == IllegalLine(|bytes|)
  {
  }

  /** The header comes first; empty bytecode gives the header alone. */
  lemma DisassemblyStartsWithHeader(bytes: seq<u8>, name: string)
    ensures Header(name) <= Disassembly(bytes, name)
    ensures bytes == [] ==> Disassembly(bytes, name) == Header(name)
  {
  }

  /** A valid first byte: one line per byte, offsets `0 .. |bytes|-1`, all with that byte's mnemonic. */
  lemma DisassemblyOfValidFirstByte(bytes: seq<u8>, name: string, op: Op)
    requires 0 < |bytes| && TryFromPrimitive(bytes[0]) == Ok(op)
    ensures Disassembly(bytes, name) == Header(name) + Concat(Lines(op, |bytes|))
  {
    ListingLines(op, |bytes|);
  }

  /** An invalid first byte: a single "Illegal Instruction" line, labelled with the length. */
  lemma DisassemblyOfInvalidFirstByte(bytes: seq<u8>, name: string)
    requires 0 < |bytes| && TryFromPrimitive(bytes[0]).Err?
    ensures Disassembly(bytes, name) == Header(name) + ZeroPadded4(|bytes|) + " Illegal Instruction "
  {
  }

  /** `Bytecode`: a byte stream, its line table, its constant pool and the finished flag. */
  class Bytecode {
    var bytes: seq<u8>
    var lines: seq<nat>
    var constants: seq<LoxValue>
    var finishedCompilation: bool

    /** `Bytecode::new`. */
    constructor New()
      ensures bytes == [] && lines == [] && constants == [] && !finishedCompilation
    {
      bytes := [];
      lines := [];
      constants := [];
      finishedCompilation := false;
    }

    /** `Bytecode::default` (derived): the same empty unit. */
    constructor Default()
      ensures bytes == [] && lines == [] && constants == [] && !finishedCompilation
    {
      bytes := [];
      lines := [];
      constants := [];
      finishedCompilation := false;
    }

    /** `write_op`: appends the discriminant; the line table is not touched. */
    method WriteOp(op: Op)
      modifies this
      ensures bytes == old(bytes) + [ToU8(op)]
      ensures lines == old(lines) && constants == old(constants)
      ensures finishedCompilation == old(finishedCompilation)
    {
      bytes := bytes + [ToU8(op)];
    }

    /** `write_u8` (reconstructed): appends a byte and its source line. */
    method WriteU8(byte: u8, line: nat)
      modifies this
      ensures bytes == old(bytes) + [byte] && lines == old(lines) + [line]
      ensures constants == old(constants) && finishedCompilation == old(finishedCompilation)
    {
      bytes := bytes + [byte];
      lines := lines + [line];
    }

    /** `add_constant` (reconstructed): appends to the pool and returns the new entry's index. */
    method AddConstant(value: LoxValue) returns (index: nat)
      modifies this
      ensures constants == old(constants) + [value] && index == |old(constants)|
      ensures bytes == old(bytes) && lines == old(lines)
      ensures finishedCompilation == old(finishedCompilation)
    {
      index := |constants|;
      constants := constants + [value];
    }

    /** `get_constant` (reconstructed): the pool entry at `index`, which dispatch does not check. */
    method GetConstant(index: nat) returns (value: LoxValue)
      requires index < |constants|
      ensures value == constants[index]
    {
      value := constants[index];
    }

    /** `get_base_ip` (reconstructed): a cursor at offset 0, only for a finished unit. */
    method GetBaseIp() returns (ip: Option<Ip>)
      ensures ip.Some? <==> finishedCompilation
      ensures ip.Some? ==> ip.value.offset == 0
    {
      if finishedCompilation {
        ip := Some(Ip(0));
      } else {
        ip := None;
      }
    }

    /**
     * `disassemble`. The loop's index only grows and stays within the
     * length, so the loop ends.
     */
    method Disassemble(name: string) returns (disassembly: string)
      ensures disassembly == Disassembly(bytes, name)
    {
      disassembly := Header(name);
      var opIndex := 0;
      while opIndex < |bytes|
        invariant opIndex <= |bytes|
        invariant 0 < opIndex < |bytes| ==> TryFromPrimitive(bytes[0]).Ok?
        invariant disassembly == Header(name) + Body(bytes, opIndex)
        decreases |bytes| - opIndex
      {
        var opcode;
        ghost var before := opIndex;
        var decoded := TryFromPrimitive(bytes[0]);
        if decoded.Ok? {
          opcode := InstructionLine(opIndex, decoded.value);
          opIndex := opIndex + 1;
          BodyStep(bytes, before, decoded.value);
        } else {
          opIndex := |bytes|;
          opcode := IllegalLine(opIndex);
          BodyIllegal(bytes);
        }
        AppendAssoc(Header(name), Body(bytes, before), opcode);
        disassembly := disassembly + opcode;
      }
    }
  }
}
