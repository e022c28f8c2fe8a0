/**
 * The VM's value stack and its stack-top cursor (src/stack.rs). The raw
 * pointer becomes an index into the stack's array; the pointer and the
 * array it points into stay one object each, so a write through the
 * cursor is a write into the stack.
 */
module Stacks {
  import opened Values

  /** The cursor's typestate: `Sp<Initialized, _>` or `Sp<Uninitialized, _>`. */
  datatype CursorState = Initialized | Uninitialized

  /** `Stack<StackSize>`: a fixed array of values. */
  class Stack {
    const bytes: array<LoxValue>

    /** `Stack::new`: `StackSize` slots, each `LoxValue::default()`. */
    constructor New(stackSize: nat)
      ensures fresh(bytes) && bytes.Length == stackSize
      ensures forall i | 0 <= i < stackSize :: bytes[i] == Default()
    {
      bytes := new LoxValue[stackSize](_ => Default());
    }

    /** `get_base_sp`: an initialised cursor at slot 0. */
    method GetBaseSp() returns (sp: Sp)
      ensures fresh(sp) && sp.Valid()
      ensures sp.state == Initialized && sp.slots == bytes && sp.ptr == 0
    {
      sp := Sp.Create(this);
    }
  }

  /** `Sp`: a position `ptr` into `slots`; `slots` is null for an uninitialised cursor. */
  class Sp {
    const state: CursorState
    const slots: array?<LoxValue>
    var ptr: nat

    /** An initialised cursor points into a stack, at most one past its last slot. */
    ghost predicate Valid()
      reads this
    {
      (state == Initialized <==> slots != null)
      && (slots != null ==> ptr <= slots.Length)
    }

    constructor Make(state: CursorState, slots: array?<LoxValue>, ptr: nat)
      ensures this.state == state && this.slots == slots && this.ptr == ptr
    {
      this.state := state;
      this.slots := slots;
      this.ptr := ptr;
    }

    /** `Sp::create`: a cursor at the stack's first slot. */
    static method Create(stack: Stack) returns (sp: Sp)
      ensures fresh(sp) && sp.Valid()
      ensures sp.state == Initialized && sp.slots == stack.bytes && sp.ptr == 0
    {
      sp := new Sp.Make(Initialized, stack.bytes, 0);
    }

    /** `Sp::create_uninitialized`: a null cursor, which has no value operations. */
    static method CreateUninitialized() returns (sp: Sp)
      ensures fresh(sp) && sp.Valid()
      ensures sp.state == Uninitialized && sp.slots == null
    {
      sp := new Sp.Make(Uninitialized, null, 0);
    }

    /** `get_value`: the value under the cursor; nothing changes. */
    method GetValue() returns (value: LoxValue)
      requires Valid() && state == Initialized && ptr < slots.Length
      ensures value == slots[ptr]
    {
      value := slots[ptr];
    }

    /** `write_value`: stores into the slot under the cursor and nowhere else; the cursor stays. */
    method WriteValue(value: LoxValue)
      requires Valid() && state == Initialized && ptr < slots.Length
      modifies slots
      ensures slots[..] == old(slots[..])[ptr := value]
      ensures slots[ptr] == value
    {
      slots[ptr] := value;
    }

    /** `read_value`: the same read as `get_value`. */
    method ReadValue() returns (value: LoxValue)
      requires Valid() && state == Initialized && ptr < slots.Length
      ensures value == slots[ptr]
    {
      value := slots[ptr];
    }

    /** `inc`: moves the cursor up; the stack must still contain the result. */
    method Inc(offset: nat)
      requires Valid() && state == Initialized && ptr + offset <= slots.Length
      modifies this
      ensures Valid() && ptr == old(ptr) + offset
    {
      ptr := ptr + offset;
    }

    /** `dec`: moves the cursor down, never below the base. */
    method Dec(offset: nat)
      requires Valid() && state == Initialized && offset <= ptr
      modifies this
      ensures Valid() && ptr == old(ptr) - offset
    {
      ptr := ptr - offset;
    }
  }

  /** Reading after a write at the same position returns the written value. */
  method WriteThenGet(sp: Sp, value: LoxValue) returns (read: LoxValue)
    requires sp.Valid() && sp.state == Initialized && sp.ptr < sp.slots.Length
    modifies sp.slots
    ensures read == value && sp.ptr == old(sp.ptr)
  {
    sp.WriteValue(value);
    read := sp.GetValue();
  }

  /** `inc(k)` then `dec(k)` brings the cursor back to its slot. */
  method IncThenDec(sp: Sp, k: nat)
    requires sp.Valid() && sp.state == Initialized && sp.ptr + k <= sp.slots.Length
    modifies sp
    ensures sp.Valid() && sp.ptr == old(sp.ptr)
  {
    sp.Inc(k);
    sp.Dec(k);
  }
}
