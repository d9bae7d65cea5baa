/** Call and return on the bounded 16-entry stack. */
module StackProperties {
  import opened Base
  import opened State
  import opened Decoder
  import opened Handlers
  import opened Interpreter

  /** A cycle on 2NNN with room on the stack pushes the address after the call and jumps. */
  lemma CallPushesReturnAddress(m: Machine, rand: Byte)
    requires Ready(m) && High(Fetch(m)) == 0x2 && m.sp < STACK_SIZE
    ensures var r := Cycle(m, rand);
      && r.sp == m.sp + 1
      && r.stack[m.sp] == m.pc + 2
      && r.pc == NNN(Fetch(m))
      && (forall k :: 0 <= k < STACK_SIZE && k != m.sp ==> r.stack[k] == m.stack[k])
  {
  }

  /** A cycle on 2NNN with a full stack pushes nothing and does not jump. */
  lemma CallOverflow(m: Machine, rand: Byte)
    requires Ready(m) && High(Fetch(m)) == 0x2 && m.sp == STACK_SIZE
    ensures var r := Cycle(m, rand); r.sp == m.sp && r.stack == m.stack && r.pc == m.pc + 2
  {
  }

  /** A cycle on 00EE with a non-empty stack pops the top address into the program counter. */
  lemma ReturnPops(m: Machine, rand: Byte)
    requires Ready(m) && Fetch(m) == 0x00EE && m.sp > 0
    ensures var r := Cycle(m, rand); r.sp == m.sp - 1 && r.pc == m.stack[m.sp - 1] && r.stack == m.stack
  {
  }

  /** A cycle on 00EE with an empty stack changes neither the depth nor the control flow. */
  lemma ReturnUnderflow(m: Machine, rand: Byte)
    requires Ready(m) && Fetch(m) == 0x00EE && m.sp == 0
    ensures var r := Cycle(m, rand); r.sp == 0 && r.pc == m.pc + 2 && r.stack == m.stack
  {
  }

  /**
   * A return right after a successful call restores the program counter and the
   * depth; only the now-unused stack slot keeps the pushed address.
   */
  lemma CallThenReturn(m: Machine, op: Word)
    requires Valid(m) && m.sp < STACK_SIZE
    ensures Return(Call(m, op)) == m.(stack := m.stack[m.sp := m.pc])
  {
  }

  /**
   * Two cycles: a call to a subroutine whose first instruction is 00EE, then
   * that return, resume at the instruction after the call with the old depth.
   */
  lemma CallThenReturnCycles(m: Machine, rand1: Byte, rand2: Byte)
    requires Ready(m) && High(Fetch(m)) == 0x2 && m.sp < STACK_SIZE
    requires var target := NNN(Fetch(m));
      target + 1 < MEMORY_SIZE && m.memory[target] == 0x00 && m.memory[target + 1] == 0xEE
    ensures Ready(Cycle(m, rand1))
    ensures var r := Cycle(Cycle(m, rand1), rand2); r.pc == m.pc + 2 && r.sp == m.sp
  {
    var m1 := Cycle(m, rand1);
    assert m1.memory == m.memory && m1.pc == NNN(Fetch(m));
    assert Fetch(m1) == 0x00EE;
  }

  /** `count` cycles' worth of calls, each to `target`, made directly on the routine. */
  function Calls(m: Machine, target: Word, count: nat): (r: Machine)
    requires Valid(m)
    ensures Valid(r)
    ensures r.sp == if m.sp + count <= STACK_SIZE then m.sp + count else STACK_SIZE
    ensures forall k :: 0 <= k < m.sp ==> r.stack[k] == m.stack[k]
    decreases count
  {
    if count == 0 then m else Calls(Call(m, 0x2000 + target % 0x1000), target, count - 1)
  }

  /** `count` returns made directly on the routine. */
  function Returns(m: Machine, count: nat): (r: Machine)
    requires Valid(m)
    ensures Valid(r)
    ensures r.sp == if count <= m.sp then m.sp - count else 0
    ensures r.stack == m.stack
    ensures 0 < count <= m.sp ==> r.pc == m.stack[m.sp - count]
    ensures count > m.sp ==> r.pc == (if m.sp == 0 then m.pc else m.stack[0])
    decreases count
  {
    if count == 0 then m else Returns(Return(m), count - 1)
  }

  /**
   * From an empty stack, sixteen calls all succeed and fill the stack; a
   * seventeenth leaves the stack as it was.
   */
  lemma SixteenCallsFit(m: Machine, target: Word)
    requires Valid(m) && m.sp == 0
    ensures Calls(m, target, STACK_SIZE).sp == STACK_SIZE
    ensures var full := Calls(m, target, STACK_SIZE); Call(full, 0x2000 + target % 0x1000) == full
  {
  }
}
