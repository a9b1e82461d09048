/** The gas of the virtual machine: `monkvm/vm.go` and `monkvm/closure.go`. The stack, the memory
    size, the code and the gas are as in the source; what the machine computes and what it is told
    about accounts and storage is given from outside, and may be anything. */
module Vm {
  import opened Bytes

  // ---- Instructions -------------------------------------------------------------------------------

  const STOP: byte := 0x00
  const SHA3: byte := 0x20
  const BALANCE: byte := 0x31
  const CALLDATALOAD: byte := 0x35
  const CALLDATACOPY: byte := 0x37
  const CODECOPY: byte := 0x39
  const EXTCODECOPY: byte := 0x3b
  const CALLSTACK: byte := 0x3d
  const NONCE: byte := 0x3f
  const POP: byte := 0x50
  const MLOAD: byte := 0x53
  const MSTORE: byte := 0x54
  const MSTORE8: byte := 0x55
  const SLOAD: byte := 0x56
  const SSTORE: byte := 0x57
  const JUMP: byte := 0x58
  const JUMPI: byte := 0x59
  const PC: byte := 0x5a
  const MSIZE: byte := 0x5b
  const GAS: byte := 0x5c
  const PUSH1: byte := 0x60
  const PUSH32: byte := 0x7f
  const DUP1: byte := 0x80
  const DUP16: byte := 0x8f
  const SWAP1: byte := 0x90
  const SWAP16: byte := 0x9f
  const CREATE: byte := 0xf0
  const CALL: byte := 0xf1
  const RETURN: byte := 0xf2
  const CALLSTATELESS: byte := 0xf4
  const SUICIDE: byte := 0xff

  predicate IsPush(op: byte) { PUSH1 <= op <= PUSH32 }

  predicate IsDup(op: byte) { DUP1 <= op <= DUP16 }

  predicate IsSwap(op: byte) { SWAP1 <= op <= SWAP16 }

  predicate IsCall(op: byte) { op == CALL || op == CALLSTATELESS }

  /** How many words an instruction takes, and how many it gives; nothing for a byte that is no
      instruction. */
  function Arity(op: byte): (int, int) {
    if op == STOP then (0, 0)
    else if op == 0x09 || op == 0x0f then (1, 1)
    else if op <= 0x13 then (2, 1)
    else if op <= 0x15 then (3, 1)
    else if op == SHA3 then (2, 1)
    else if op in {BALANCE, CALLDATALOAD, CALLSTACK, NONCE, MLOAD, SLOAD} then (1, 1)
    else if op == CALLDATACOPY || op == CODECOPY then (3, 0)
    else if op == EXTCODECOPY then (4, 0)
    else if 0x30 <= op <= 0x46 || op in {PC, MSIZE, GAS} then (0, 1)
    else if op == POP || op == JUMP || op == SUICIDE then (1, 0)
    else if op in {MSTORE, MSTORE8, SSTORE, JUMPI, RETURN} then (2, 0)
    else if IsPush(op) then (0, 1)
    else if IsDup(op) then (op - DUP1 + 1, op - DUP1 + 2)
    else if IsSwap(op) then (op - SWAP1 + 2, op - SWAP1 + 2)
    else if op == CREATE then (3, 1)
    else if IsCall(op) then (7, 1)
    else (-1, 0)
  }

  /** What an instruction is told. */
  datatype Found = Found(
    word: nat,          // the result, where it is not on the stack already
    panics: bool,       // a division by zero, or memory out of reach
    refused: bool,      // the sender may not create
    wasZero: bool,      // the storage slot before
    poor: bool,         // the value is more than the account has
    native: bool,       // the address has built-in code
    code: seq<byte>)    // the code of a call

  type Stack = seq<nat>

  /** The k-th word from the top. */
  function Word(stack: Stack, k: nat): nat
    requires 0 < k <= |stack|
  {
    stack[|stack| - k]
  }

  // ---- What an instruction costs ------------------------------------------------------------------

  /** The price depends on the stack, which is looked at before anything is paid. */
  predicate PricedByStack(op: byte) {
    op in {SSTORE, MSTORE, MLOAD, MSTORE8, RETURN, SHA3, CALLDATACOPY, CODECOPY, EXTCODECOPY, CREATE} || IsCall(op)
  }

  predicate Priced(op: byte, stack: Stack) {
    PricedByStack(op) ==> |stack| >= Arity(op).0
  }

  /** `calcMemSize`. */
  function MemSize(offset: nat, size: nat): nat {
    if size == 0 then 0 else offset + size
  }

  function Max(a: nat, b: nat): nat {
    if a > b then a else b
  }

  /** The memory an instruction needs. */
  function MemNeeded(op: byte, stack: Stack): nat
    requires Priced(op, stack)
  {
    if op == MSTORE || op == MLOAD then MemSize(Word(stack, 1), 32)
    else if op == MSTORE8 then MemSize(Word(stack, 1), 1)
    else if op == RETURN || op == SHA3 then MemSize(Word(stack, 1), Word(stack, 2))
    else if op == CALLDATACOPY || op == CODECOPY then MemSize(Word(stack, 1), Word(stack, 3))
    else if op == EXTCODECOPY then MemSize(Word(stack, 2), Word(stack, 4))
    else if IsCall(op) then Max(MemSize(Word(stack, 6), Word(stack, 7)), MemSize(Word(stack, 4), Word(stack, 5)))
    else if op == CREATE then MemSize(Word(stack, 2), Word(stack, 3))
    else 0
  }

  function Rounded(size: nat): nat {
    (size + 31) / 32 * 32
  }

  function MemGas(needed: nat, mem: nat): nat {
    if needed > 0 && Rounded(needed) > mem then (Rounded(needed) - mem) / 32 else 0
  }

  /** A storage slot that holds something is set to zero. */
  predicate Clears(op: byte, stack: Stack, f: Found)
    requires Priced(op, stack)
  {
    op == SSTORE && !f.wasZero && Word(stack, 2) == 0
  }

  function BaseGas(op: byte, stack: Stack, f: Found): nat
    requires Priced(op, stack)
  {
    if op == STOP || op == SUICIDE then 0
    else if op in {SLOAD, BALANCE, NONCE, SHA3} then 20
    else if op == SSTORE then
      (if f.wasZero && Word(stack, 2) > 0 then 200 else if Clears(op, stack, f) then 0 else 100)
    else if IsCall(op) then 20 + Word(stack, 1)
    else if op == CREATE then 100
    else 1
  }

  function Price(op: byte, stack: Stack, f: Found, mem: nat): nat
    requires Priced(op, stack)
  {
    BaseGas(op, stack, f) + MemGas(MemNeeded(op, stack), mem)
  }

  /** Only three instructions are free, and only one of them goes on. */
  lemma FreeInstructions(op: byte, stack: Stack, f: Found, mem: nat)
    requires Priced(op, stack)
    ensures Price(op, stack, f, mem) == 0 <==> op == STOP || op == SUICIDE || Clears(op, stack, f)
  {
  }

  // ---- Closures ----------------------------------------------------------------------------------

  /** A `big.Int` that may be shared. */
  class Num {
    var n: int

    constructor (n: int)
      ensures this.n == n
    {
      this.n := n;
    }
  }

  class Closure {
    const code: seq<byte>
    /** The closure that called, or nothing for an account, which takes no gas back. */
    const caller: Closure?
    const gas: Num
    const usedGas: Num

    constructor (code: seq<byte>, caller: Closure?, gas: Num)
      ensures this.code == code && this.caller == caller && this.gas == gas && fresh(usedGas)
    {
      this.code, this.caller, this.gas := code, caller, gas;
      this.usedGas := new Num(0);
    }

    /** The two numbers are apart, and apart from the caller's. */
    ghost predicate Apart() {
      && gas != usedGas
      && (caller != null ==> {gas, usedGas} !! {caller.gas, caller.usedGas} && caller.gas != caller.usedGas)
    }

    /** `UseGas`. Given the closure's own number, it is left with nothing and none is recorded
        as used. */
    method UseGas(amount: Num) returns (ok: bool)
      requires gas != usedGas && amount != usedGas && amount.n >= 0
      modifies gas, usedGas
      ensures ok == (old(gas.n) >= old(amount.n))
      ensures gas.n == if ok then old(gas.n) - old(amount.n) else old(gas.n)
      ensures usedGas.n == if ok && amount != gas then old(usedGas.n) + old(amount.n) else old(usedGas.n)
    {
      if gas.n < amount.n { return false; }
      gas.n := gas.n - amount.n;
      usedGas.n := usedGas.n + amount.n;
      return true;
    }

    /** `ReturnGas`, to this closure from one that it called. */
    method ReturnGas(amount: Num)
      requires gas != usedGas && amount != gas && amount != usedGas
      modifies gas, usedGas
      ensures gas.n == old(gas.n) + amount.n && usedGas.n == old(usedGas.n) - amount.n
    {
      gas.n := gas.n + amount.n;
      usedGas.n := usedGas.n - amount.n;
    }

    /** `Return`: what is left goes to the caller. */
    method Return()
      requires Apart()
      modifies if caller == null then {} else {caller.gas, caller.usedGas}
      ensures caller != null ==> caller.gas.n == old(caller.gas.n) + gas.n
    {
      if caller != null { caller.ReturnGas(gas); }
    }
  }

  // ---- Runs ----------------------------------------------------------------------------------------

  type Tape = nat -> Found

  function At(tape: Tape, time: nat): Found {
    tape(time)
  }

  /** The instructions that `used` gas pays for, in code of at most `longest` bytes. */
  function Paid(used: int, longest: nat): int {
    used * (longest + 1)
  }

  lemma {:induction false} PaidSum(a: int, b: int, longest: nat)
    ensures Paid(a + b, longest) == Paid(a, longest) + Paid(b, longest)
  {
    assert (a + b) * (longest + 1) == a * (longest + 1) + b * (longest + 1);
  }

  lemma {:induction false} PaidAtLeast(used: int, k: nat, longest: nat)
    requires used >= k
    ensures Paid(used, longest) >= k * longest + k
  {
    assert (used - k) * (longest + 1) >= 0;
    PaidSum(used - k, k, longest);
  }

  /** `Int64` of a number: its last 64 bits. */
  function Int64(n: nat): int {
    var low := n % TWO64;
    if low < TWO63 then low else low - TWO64
  }

  /** How far the code goes on from `pc`. */
  function Rank(code: seq<byte>, pc: nat): nat {
    var place := Int64(pc);
    if place < 0 || place >= |code| then 0 else |code| - place
  }

  /** The next place is one further on. */
  lemma {:induction false} RankNext(code: seq<byte>, pc: nat)
    requires |code| < TWO63 && 0 <= Int64(pc) < |code|
    ensures Rank(code, pc + 1) == Rank(code, pc) - 1
  {
  }

  /** `Get`: nothing is read from behind the end, and nothing at all from code of one byte. */
  function Fetch(code: seq<byte>, pc: nat): byte
    requires Int64(pc) >= 0
  {
    if Int64(pc) >= |code| || 1 >= |code| then STOP else code[Int64(pc)]
  }

  /** The words that an instruction leaves, if it calls nothing: those under the ones it takes, and
      its results. */
  function Results(op: byte, stack: Stack, f: Found, pc: nat, mem: nat, gas: nat): Stack
    requires |stack| >= Arity(op).0
  {
    if IsDup(op) then stack + [Word(stack, op - DUP1 + 1)]
    else if IsSwap(op) then
      var k, top := |stack| - (op - SWAP1 + 2), |stack| - 1;
      stack[k := stack[top]][top := stack[k]]
    else
      var under := if Arity(op).0 > 0 then stack[..|stack| - Arity(op).0] else stack;
      if Arity(op).1 < 1 then under
      else under + [if op == PC then pc else if op == MSIZE then mem else if op == GAS then gas else f.word]
  }

  /** The gas after an instruction, from the gas after its price is paid: the same, but that a call
      may give back what it was handed, and a creation keep what it is handed. */
  predicate Charged(op: byte, stack: Stack, paid: int, gas: int)
    requires Priced(op, stack)
  {
    if IsCall(op) then paid <= gas <= paid + Word(stack, 1)
    else if op == CREATE then 0 <= gas <= paid
    else gas == paid
  }

  datatype Signal = Go | Done | Fail

  class Machine {
    const tape: Tape
    var clock: nat
    /** All instructions so far, in all nested runs. */
    ghost var steps: nat
    ghost const longest: nat

    constructor (tape: Tape, ghost longest: nat)
      requires longest < TWO63 && forall t: nat :: |At(tape, t).code| <= longest
      ensures Bounded() && steps == 0 && this.tape == tape
    {
      this.tape, this.clock, this.steps, this.longest := tape, 0, 0, longest;
    }

    ghost predicate Bounded() {
      longest < TWO63 && forall t: nat :: |At(tape, t).code| <= longest
    }

    method Ask() returns (f: Found)
      modifies `clock
      ensures f == At(tape, old(clock))
    {
      f := At(tape, clock);
      clock := clock + 1;
    }

    /** `Message.Exec`: the gas is given back, used up, or taken along by a new closure. */
    method Exec(c: Closure, gas: Num, f: Found) returns (failed: bool)
      requires Bounded() && |f.code| <= longest
      requires c.gas != c.usedGas && gas !in {c.gas, c.usedGas} && gas.n >= 0
      modifies `clock, `steps, c.gas, c.usedGas, gas
      ensures old(c.gas.n) <= c.gas.n <= old(c.gas.n) + old(gas.n)
      ensures steps <= old(steps) + Paid(old(c.gas.n) + old(gas.n) - c.gas.n, longest) + longest + 1
      decreases gas.n, 3
    {
      if f.poor {
        c.ReturnGas(gas);
        return true;
      }
      if f.native {
        PaidAtLeast(gas.n, 0, longest);
        return false;
      }
      var callee := new Closure(f.code, c, gas);
      failed := RunClosure(callee);
    }

    /** Gas is handed to a call. Of what the caller had before, at least 20 is gone after it. */
    method Hand(c: Closure, gas: Num, f: Found, ghost before: int) returns (failed: bool)
      requires Bounded() && |f.code| <= longest
      requires c.gas != c.usedGas && gas !in {c.gas, c.usedGas} && gas.n >= 0
      requires c.gas.n >= 0 && before >= c.gas.n + gas.n + 20
      modifies `clock, `steps, c.gas, c.usedGas, gas
      ensures 0 <= c.gas.n <= before - 20 && old(c.gas.n) <= c.gas.n <= old(c.gas.n) + old(gas.n)
      ensures steps <= old(steps) - 1 + Paid(before - c.gas.n, longest) - longest
      decreases gas.n, 4
    {
      ghost var handed, toll := c.gas.n + gas.n, before - c.gas.n - gas.n;
      failed := Exec(c, gas, f);
      PaidSum(handed - c.gas.n, toll, longest);
      PaidAtLeast(toll, 20, longest);
    }

    /** `RunClosure`: it comes to an end, it never gains gas, and for what it uses it runs no more
        instructions, with all that it calls, than the longest code has room for. */
    method RunClosure(c: Closure) returns (failed: bool)
      requires Bounded() && c.Apart() && c.gas.n >= 0 && |c.code| <= longest
      modifies `clock, `steps, c.gas, c.usedGas, if c.caller == null then {} else {c.caller.gas, c.caller.usedGas}
      ensures 0 <= c.gas.n <= old(c.gas.n)
      ensures c.caller != null ==> c.caller.gas.n == old(c.caller.gas.n) + c.gas.n
      ensures steps <= old(steps) + Paid(old(c.gas.n) - c.gas.n, longest) + longest + 1
      decreases c.gas.n, 2
    {
      ghost var all := c.gas.n;
      var signal := if c.code == [] then Done else Go;
      var pc: nat, mem: nat, stack: Stack := 0, 0, [];
      while signal == Go
        invariant 0 <= c.gas.n <= all
        invariant c.caller != null ==> c.caller.gas.n == old(c.caller.gas.n)
        invariant steps <= old(steps) + Paid(all - c.gas.n, longest) + |c.code| - (if signal == Go then Rank(c.code, pc) else -1)
        decreases signal == Go, c.gas.n, Rank(c.code, pc)
      {
        ghost var before := c.gas.n;
        signal, pc, mem, stack := Step(c, pc, mem, stack);
        PaidSum(all - before, before - c.gas.n, longest);
      }
      c.Return();
      failed := signal == Fail;
    }

    /** One turn of the loop. */
    method Step(c: Closure, pc: nat, mem: nat, stack: Stack) returns (signal: Signal, pc': nat, mem': nat, stack': Stack)
      requires Bounded() && c.gas != c.usedGas && c.gas.n >= 0 && |c.code| <= longest
      modifies `clock, `steps, c.gas, c.usedGas
      ensures 0 <= c.gas.n <= old(c.gas.n)
      ensures signal == Go ==> c.gas.n < old(c.gas.n) || Rank(c.code, pc') < Rank(c.code, pc)
      ensures steps <= old(steps) + Paid(old(c.gas.n) - c.gas.n, longest)
                       + (if signal == Go then Rank(c.code, pc) - Rank(c.code, pc') else 1)
      ensures Int64(pc) >= 0 ==>
                var op, f := Fetch(c.code, pc), At(tape, old(clock));
                if (op == CREATE && f.refused) || !Priced(op, stack) then c.gas.n == old(c.gas.n)
                else if Price(op, stack, f, mem) > old(c.gas.n) then c.gas.n == 0
                else Charged(op, stack, old(c.gas.n) - Price(op, stack, f, mem), c.gas.n)
      decreases c.gas.n, 1
    {
      steps := steps + 1;
      pc', mem', stack' := pc, mem, stack;
      PaidAtLeast(0, 0, longest);
      if Int64(pc) < 0 && |c.code| > 1 { return Fail, pc, mem, stack; }
      var op := if Int64(pc) < 0 then STOP else Fetch(c.code, pc);
      var f := Ask();
      if op == CREATE && f.refused { return Fail, pc, mem, stack; }
      if !Priced(op, stack) { return Fail, pc, mem, stack; }
      var price := new Num(Price(op, stack, f, mem));
      var ok := c.UseGas(price);
      if !ok {
        ok := c.UseGas(c.gas);
        PaidAtLeast(old(c.gas.n), 0, longest);
        return Fail, pc, mem, stack;
      }
      mem' := Max(mem, Rounded(MemNeeded(op, stack)));
      signal, pc', stack' := Perform(c, op, f, pc, mem', stack, old(c.gas.n));
    }

    /** What an instruction that is paid for does. */
    method Perform(c: Closure, op: byte, f: Found, pc: nat, mem: nat, stack: Stack, ghost before: int)
      returns (signal: Signal, pc': nat, stack': Stack)
      requires Bounded() && |f.code| <= longest && c.gas != c.usedGas && c.gas.n >= 0 && |c.code| <= longest
      requires op == STOP || (0 <= Int64(pc) < |c.code|)
      requires Priced(op, stack) && before >= c.gas.n + BaseGas(op, stack, f) && steps > 0
      modifies `clock, `steps, c.gas, c.usedGas
      ensures 0 <= c.gas.n <= before
      ensures signal == Go ==> c.gas.n < before || Rank(c.code, pc') < Rank(c.code, pc)
      ensures steps <= old(steps) - 1 + Paid(before - c.gas.n, longest)
                       + (if signal == Go then Rank(c.code, pc) - Rank(c.code, pc') else 1)
      ensures Charged(op, stack, old(c.gas.n), c.gas.n)
      decreases before, 0
    {
      PaidAtLeast(before - c.gas.n, BaseGas(op, stack, f), longest);
      if f.panics || Arity(op).0 < 0 || |stack| < Arity(op).0 { return Fail, pc, stack; }
      if op == STOP || op == SUICIDE || op == RETURN { return Done, pc, stack; }
      RankNext(c.code, pc);
      signal, pc', stack' := Go, pc + 1, Results(op, stack, f, pc, mem, c.gas.n);
      if op == JUMP || (op == JUMPI && Word(stack, 2) >= 1) {
        pc' := Word(stack, 1);
      } else if IsPush(op) {
        pc' := pc + (op - PUSH1) + 2;
      } else if IsCall(op) {
        var gas := new Num(Word(stack, 1));
        var failed := Hand(c, gas, f, before);
        stack' := stack[..|stack| - 7] + [if failed then 0 else 1];
      } else if op == CREATE {
        var gas := new Num(c.gas.n);
        var ok := c.UseGas(c.gas);
        var failed := Hand(c, gas, f, before);
        stack' := stack[..|stack| - 3] + [if failed then 0 else f.word];
      }
    }
  }
}
