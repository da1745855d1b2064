/** The return-address stack of the CHIP-8 machine as a value: a fixed array of
    sixteen 16-bit slots and a separate stack pointer, with the push and pop of
    chip8_core/src/lib.rs. An out-of-range slot index (push on a full stack) and
    a stack-pointer underflow (pop on an empty stack) abort the Rust program; here
    they are the error results `Overflow` and `Underflow`. */
module CallStack {
  import opened Chip8

  datatype StackError = Overflow | Underflow

  datatype Result<T> = Ok(value: T) | Err(error: StackError)

  /** `slots` is the `stack` array, `sp` the `stack_pointer`: the number of live
      entries, which sit in `slots[0..sp]` with the most recent last. */
  datatype Stack = Stack(slots: seq<u16>, sp: nat) {
    /** Sixteen slots, and a pointer that never passes the capacity. */
    predicate Valid() {
      |slots| == STACK_SIZE && sp <= STACK_SIZE
    }

    /** The return addresses currently on the stack, oldest first. */
    function Live(): (live: seq<u16>)
      requires Valid()
      ensures |live| == sp
    {
      slots[..sp]
    }
  }

  /** The stack of a freshly built or reset machine: every slot 0, pointer 0. */
  const EMPTY: Stack := Stack(seq(STACK_SIZE, _ => 0), 0)

  /** The outcome of a pop: the stack afterwards and the address it returned. */
  datatype Popped = Popped(rest: Stack, top: u16)

  /** `push`: store `v` in the slot the pointer designates, then advance the
      pointer. On a full stack the slot index is out of range. */
  function Push(s: Stack, v: u16): (r: Result<Stack>)
    requires s.Valid()
    ensures r.Ok? <==> s.sp < STACK_SIZE
    ensures r.Err? ==> r.error == Overflow
    ensures r.Ok? ==> r.value.Valid() && r.value.sp == s.sp + 1
    ensures r.Ok? ==> r.value.slots[s.sp] == v
    ensures r.Ok? ==> forall i :: 0 <= i < STACK_SIZE && i != s.sp ==> r.value.slots[i] == s.slots[i]
    ensures r.Ok? ==> r.value.Live() == s.Live() + [v]
  {
    if s.sp < STACK_SIZE then
      Ok(Stack(s.slots[s.sp := v], s.sp + 1))
    else
      Err(Overflow)
  }

  /** `pop`: step the pointer back, then read the slot it now designates. The
      slots themselves are left as they were. On an empty stack the decrement of
      the unsigned pointer underflows. */
  function Pop(s: Stack): (r: Result<Popped>)
    requires s.Valid()
    ensures r.Ok? <==> s.sp > 0
    ensures r.Err? ==> r.error == Underflow
    ensures r.Ok? ==> r.value.rest.Valid() && r.value.rest.sp + 1 == s.sp
    ensures r.Ok? ==> r.value.rest.slots == s.slots
    ensures r.Ok? ==> r.value.top == s.slots[r.value.rest.sp]
    ensures r.Ok? ==> r.value.rest.Live() + [r.value.top] == s.Live()
  {
    if s.sp > 0 then
      Ok(Popped(Stack(s.slots, s.sp - 1), s.slots[s.sp - 1]))
    else
      Err(Underflow)
  }

  /** A pop right after a successful push returns the pushed address and gives
      back the pointer and the live entries the stack had before the push. */
  lemma PushThenPop(s: Stack, v: u16)
    requires s.Valid() && s.sp < STACK_SIZE
    ensures Pop(Push(s, v).value).Ok?
    ensures Pop(Push(s, v).value).value.top == v
    ensures Pop(Push(s, v).value).value.rest.sp == s.sp
    ensures Pop(Push(s, v).value).value.rest.Live() == s.Live()
  {
  }

  // ---------------------------------------------------------------------------
  // Sequences of stack operations

  datatype StackOp = PushOp(v: u16) | PopOp

  /** What a run of operations leaves behind: the final stack and the addresses
      the pops returned, in the order they were returned. */
  datatype Trace<S> = Trace(final: S, popped: seq<u16>)

  /** Applies `ops` in order, stopping at the first operation that fails. */
  function Run(s: Stack, ops: seq<StackOp>): (r: Result<Trace<Stack>>)
    requires s.Valid()
    ensures r.Ok? ==> r.value.final.Valid()
    decreases |ops|
  {
    if ops == [] then Ok(Trace(s, []))
    else match ops[0]
      case PushOp(v) =>
        (match Push(s, v)
         case Err(e) => Err(e)
         case Ok(next) => Run(next, ops[1..]))
      case PopOp =>
        (match Pop(s)
         case Err(e) => Err(e)
         case Ok(p) =>
           match Run(p.rest, ops[1..])
           case Err(e) => Err(e)
           case Ok(t) => Ok(Trace(t.final, [p.top] + t.popped)))
  }

  /** Reference stack: the live entries as a plain list, last element on top,
      holding at most STACK_SIZE entries. */
  function ListRun(xs: seq<u16>, ops: seq<StackOp>): Result<Trace<seq<u16>>>
    decreases |ops|
  {
    if ops == [] then Ok(Trace(xs, []))
    else match ops[0]
      case PushOp(v) =>
        if |xs| < STACK_SIZE then ListRun(xs + [v], ops[1..]) else Err(Overflow)
      case PopOp =>
        if xs == [] then Err(Underflow)
        else
          match ListRun(xs[..|xs| - 1], ops[1..])
          case Err(e) => Err(e)
          case Ok(t) => Ok(Trace(t.final, [xs[|xs| - 1]] + t.popped))
  }

  /** The slot-and-pointer stack behaves as the list stack on every run: the same
      operations fail with the same error, and otherwise the same addresses are
      popped and the same entries are left live. */
  lemma {:induction false} RunMatchesList(s: Stack, ops: seq<StackOp>)
    requires s.Valid()
    ensures Run(s, ops).Ok? <==> ListRun(s.Live(), ops).Ok?
    ensures Run(s, ops).Err? ==> Run(s, ops).error == ListRun(s.Live(), ops).error
    ensures Run(s, ops).Ok? ==>
              Run(s, ops).value.final.Live() == ListRun(s.Live(), ops).value.final &&
              Run(s, ops).value.popped == ListRun(s.Live(), ops).value.popped
    decreases |ops|
  {
    if ops != [] {
      match ops[0]
      case PushOp(v) =>
        if s.sp < STACK_SIZE {
          RunMatchesList(Push(s, v).value, ops[1..]);
        }
      case PopOp =>
        if s.sp > 0 {
          var p := Pop(s).value;
          assert s.Live()[..|s.Live()| - 1] == p.rest.Live();
          RunMatchesList(p.rest, ops[1..]);
        }
    }
  }

  // ---------------------------------------------------------------------------
  // Last in, first out, and the capacity of sixteen

  function Pushes(vs: seq<u16>): (ops: seq<StackOp>)
    ensures |ops| == |vs|
  {
    if vs == [] then [] else [PushOp(vs[0])] + Pushes(vs[1..])
  }

  function Pops(n: nat): (ops: seq<StackOp>)
    ensures |ops| == n
  {
    if n == 0 then [] else Pops(n - 1) + [PopOp]
  }

  function Reversed(vs: seq<u16>): (r: seq<u16>)
    ensures |r| == |vs|
  {
    if vs == [] then [] else Reversed(vs[1..]) + [vs[0]]
  }

  /** Running `a + b` is running `a`, then `b` from where `a` stopped. */
  lemma {:induction false} ListRunAppend(xs: seq<u16>, a: seq<StackOp>, b: seq<StackOp>)
    ensures ListRun(xs, a + b) ==
              match ListRun(xs, a)
              case Err(e) => Err(e)
              case Ok(t) =>
                match ListRun(t.final, b)
                case Err(e) => Err(e)
                case Ok(u) => Ok(Trace(u.final, t.popped + u.popped))
    decreases |a|
  {
    if a == [] {
      assert a + b == b;
      match ListRun(xs, b)
      case Err(e) =>
      case Ok(u) => assert [] + u.popped == u.popped;
    } else {
      assert (a + b)[0] == a[0] && (a + b)[1..] == a[1..] + b;
      match a[0]
      case PushOp(v) =>
        if |xs| < STACK_SIZE { ListRunAppend(xs + [v], a[1..], b); }
      case PopOp =>
        if xs != [] {
          ListRunAppend(xs[..|xs| - 1], a[1..], b);
          match ListRun(xs[..|xs| - 1], a[1..])
          case Err(e) =>
          case Ok(t) =>
            match ListRun(t.final, b)
            case Err(e) =>
            case Ok(u) => assert [xs[|xs| - 1]] + (t.popped + u.popped) == ([xs[|xs| - 1]] + t.popped) + u.popped;
        }
    }
  }

  /** A push that fits lets the list run carry on from the longer list. */
  lemma ListRunPushFirst(xs: seq<u16>, v: u16, rest: seq<StackOp>)
    requires |xs| < STACK_SIZE
    ensures ListRun(xs, [PushOp(v)] + rest) == ListRun(xs + [v], rest)
  {
  }

  /** A run that comes back to `xs + [v]` and is followed by one pop ends at
      `xs`, having popped `v` last. */
  lemma ListRunThenPop(xs: seq<u16>, v: u16, ops: seq<StackOp>, popped: seq<u16>)
    requires ListRun(xs + [v], ops) == Ok(Trace(xs + [v], popped))
    ensures ListRun(xs + [v], ops + [PopOp]) == Ok(Trace(xs, popped + [v]))
  {
    ListRunAppend(xs + [v], ops, [PopOp]);
    assert (xs + [v])[..|xs + [v]| - 1] == xs;
    assert [PopOp][1..] == [];
    assert ListRun(xs + [v], [PopOp]) == Ok(Trace(xs, [v] + []));
    assert [v] + [] == [v];
  }

  /** On the list stack, pushing `vs` and then popping as many times returns
      `vs` in reverse order and leaves the stack as it was, provided the pushes
      fit. */
  lemma {:induction false} ListPushesThenPops(xs: seq<u16>, vs: seq<u16>)
    requires |xs| + |vs| <= STACK_SIZE
    ensures ListRun(xs, Pushes(vs) + Pops(|vs|)) == Ok(Trace(xs, Reversed(vs)))
    decreases |vs|
  {
    if vs == [] {
      assert Pushes(vs) + Pops(0) == [];
    } else {
      var v, ws := vs[0], vs[1..];
      var inner := Pushes(ws) + Pops(|ws|);
      assert Pushes(vs) + Pops(|vs|) == [PushOp(v)] + (inner + [PopOp]) by {
        assert Pushes(vs) == [PushOp(v)] + Pushes(ws);
        assert Pops(|vs|) == Pops(|ws|) + [PopOp];
      }
      ListRunPushFirst(xs, v, inner + [PopOp]);
      ListPushesThenPops(xs + [v], ws);
      ListRunThenPop(xs, v, inner, Reversed(ws));
    }
  }

  /** On the list stack, a run of pushes succeeds exactly when it fits in the
      sixteen slots; otherwise it fails with an overflow. */
  lemma {:induction false} ListPushesFit(xs: seq<u16>, vs: seq<u16>)
    requires |xs| <= STACK_SIZE
    ensures ListRun(xs, Pushes(vs)).Ok? <==> |xs| + |vs| <= STACK_SIZE
    ensures ListRun(xs, Pushes(vs)).Err? ==> ListRun(xs, Pushes(vs)).error == Overflow
    ensures ListRun(xs, Pushes(vs)).Ok? ==> ListRun(xs, Pushes(vs)).value.final == xs + vs
    decreases |vs|
  {
    if vs != [] {
      var ops := Pushes(vs);
      assert ops == [PushOp(vs[0])] + Pushes(vs[1..]);
      assert ops[0] == PushOp(vs[0]) && ops[1..] == Pushes(vs[1..]);
      if |xs| < STACK_SIZE {
        assert ListRun(xs, ops) == ListRun(xs + [vs[0]], Pushes(vs[1..]));
        ListPushesFit(xs + [vs[0]], vs[1..]);
        assert xs + [vs[0]] + vs[1..] == xs + vs;
      } else {
        assert ListRun(xs, ops) == Err(Overflow);
      }
    }
  }

  /** Last in, first out: from any stack with room for `vs`, pushing `vs` and
      popping as many times succeeds, returns `vs` newest first, and restores the
      pointer and the live entries. */
  lemma PushesThenPopsReturnReversed(s: Stack, vs: seq<u16>)
    requires s.Valid() && s.sp + |vs| <= STACK_SIZE
    ensures Run(s, Pushes(vs) + Pops(|vs|)).Ok?
    ensures Run(s, Pushes(vs) + Pops(|vs|)).value.popped == Reversed(vs)
    ensures Run(s, Pushes(vs) + Pops(|vs|)).value.final.sp == s.sp
    ensures Run(s, Pushes(vs) + Pops(|vs|)).value.final.Live() == s.Live()
  {
    RunMatchesList(s, Pushes(vs) + Pops(|vs|));
    ListPushesThenPops(s.Live(), vs);
  }

  /** From the empty stack, sixteen pushes succeed and a seventeenth is an
      overflow: a run of pushes succeeds exactly when it has at most sixteen. */
  lemma PushesFromEmpty(vs: seq<u16>)
    ensures Run(EMPTY, Pushes(vs)).Ok? <==> |vs| <= STACK_SIZE
    ensures Run(EMPTY, Pushes(vs)).Err? ==> Run(EMPTY, Pushes(vs)).error == Overflow
    ensures Run(EMPTY, Pushes(vs)).Ok? ==> Run(EMPTY, Pushes(vs)).value.final.Live() == vs
  {
    var ops := Pushes(vs);
    assert EMPTY.Valid() && EMPTY.Live() == [];
    RunMatchesList(EMPTY, ops);
    ListPushesFit([], vs);
    assert [] + vs == vs;
  }

  /** Popping the empty stack is an underflow, not a default value. */
  lemma PopEmptyUnderflows()
    ensures Run(EMPTY, [PopOp]) == Err(Underflow)
  {
  }
}
