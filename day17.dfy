/** Day 17: a 3-bit register machine and the search for a register A that
    makes a program print itself. */
module Day17 {
  import opened Common

  /** The machine: registers A, B, C, the instruction address and the output so far. */
  datatype Machine = Machine(a: nat, b: nat, c: nat, ip: nat, output: seq<nat>)

  /** How a run ends: it halts with its output, it panics, or it has not
      halted after the moves it was given. */
  datatype Exit = Halted(output: seq<nat>) | Crashed | Unfinished

  /** The machine before the first instruction. */
  function Boot(r: (nat, nat, nat)): Machine
  {
    Machine(r.0, r.1, r.2, 0, [])
  }

  /** `x >> n` on unbounded registers: n halvings, each dropping the
      lowest bit. */
  function Shr(x: nat, n: nat): nat
  {
    if n == 0 then x else Shr(x / 2, n - 1)
  }

  /** Bitwise exclusive or. */
  function Xor(x: nat, y: nat): nat
    decreases x + y
  {
    if x == 0 && y == 0 then 0
    else 2 * Xor(x / 2, y / 2) + (if x % 2 == y % 2 then 0 else 1)
  }

  /** The combo operand: 0 to 3 stand for themselves, 4, 5 and 6 for the
      registers A, B and C; anything else has no value. */
  function Combo(m: Machine, operand: nat): (r: Option<nat>)
    ensures r.Some? <==> operand < 7
    ensures operand < 4 ==> r == Some(operand)
  {
    if operand < 4 then Some(operand)
    else if operand == 4 then Some(m.a)
    else if operand == 5 then Some(m.b)
    else if operand == 6 then Some(m.c)
    else None
  }

  /** The machine has halted: no opcode with its operand is left at `ip`. */
  predicate Done(program: seq<nat>, m: Machine)
  {
    m.ip + 1 >= |program|
  }

  /** One instruction. None when the opcode is unknown or a combo operand
      without a value is used. */
  function Step(program: seq<nat>, m: Machine): (r: Option<Machine>)
    requires !Done(program, m)
    ensures r.Some? && program[m.ip] != 3 ==> r.value.ip == m.ip + 2
    ensures r.Some? && program[m.ip] == 3 ==> r.value.ip == (if m.a != 0 then program[m.ip + 1] else m.ip + 2)
    ensures r.Some? && program[m.ip] != 5 ==> r.value.output == m.output
    ensures r.Some? && program[m.ip] == 5 ==> exists d :: d < 8 && r.value.output == m.output + [d]
    ensures r.None? <==> program[m.ip] > 7 || (program[m.ip] in {0, 2, 5, 6, 7} && program[m.ip + 1] >= 7)
  {
    var opcode, operand := program[m.ip], program[m.ip + 1];
    var combo := Combo(m, operand);
    var next := m.ip + 2;
    if opcode == 0 then
      if combo.None? then None else Some(m.(a := Shr(m.a, combo.value), ip := next))
    else if opcode == 1 then
      Some(m.(b := Xor(m.b, operand), ip := next))
    else if opcode == 2 then
      if combo.None? then None else Some(m.(b := combo.value % 8, ip := next))
    else if opcode == 3 then
      Some(m.(ip := if m.a != 0 then operand else next))
    else if opcode == 4 then
      Some(m.(b := Xor(m.b, m.c), ip := next))
    else if opcode == 5 then
      if combo.None? then None else Some(m.(output := m.output + [combo.value % 8], ip := next))
    else if opcode == 6 then
      if combo.None? then None else Some(m.(b := Shr(m.a, combo.value), ip := next))
    else if opcode == 7 then
      if combo.None? then None else Some(m.(c := Shr(m.a, combo.value), ip := next))
    else
      None
  }

  /** The run from m with at most `fuel` instructions. An empty program
      panics before the first check, since its length minus one underflows. */
  function Run(program: seq<nat>, m: Machine, fuel: nat): (r: Exit)
    ensures |program| == 0 ==> r == Crashed
    ensures r.Halted? ==> m.output <= r.output
    decreases fuel
  {
    if |program| == 0 then Crashed
    else if Done(program, m) then Halted(m.output)
    else if fuel == 0 then Unfinished
    else match Step(program, m)
      case None => Crashed
      case Some(m') => Run(program, m', fuel - 1)
  }

  /** Every value a run outputs is a 3-bit value, and the output only grows. */
  lemma {:induction false} RunOutput(program: seq<nat>, m: Machine, fuel: nat)
    requires forall i :: 0 <= i < |m.output| ==> m.output[i] < 8
    ensures Run(program, m, fuel).Halted? ==>
      var out := Run(program, m, fuel).output;
      && m.output <= out
      && forall i :: 0 <= i < |out| ==> out[i] < 8
    decreases fuel
  {
    if |program| > 0 && !Done(program, m) && fuel > 0 && Step(program, m).Some? {
      var m' := Step(program, m).value;
      assert forall i :: 0 <= i < |m'.output| ==> m'.output[i] < 8;
      RunOutput(program, m', fuel - 1);
    }
  }

  /** More fuel does not change a run that ended. */
  lemma {:induction false} MoreFuel(program: seq<nat>, m: Machine, fuel: nat, more: nat)
    requires fuel <= more && !Run(program, m, fuel).Unfinished?
    ensures Run(program, m, more) == Run(program, m, fuel)
    decreases fuel
  {
    if |program| > 0 && !Done(program, m) && Step(program, m).Some? {
      MoreFuel(program, Step(program, m).value, fuel - 1, more - 1);
    }
  }

  /** `run_program`'s loop, with at most `fuel` instructions: it stops once
      `ip` has no opcode with its operand left, and panics on an unknown
      opcode or a combo operand 7. */
  method RunProgram(init: (nat, nat, nat), program: seq<nat>, fuel: nat) returns (exit: Exit)
    ensures exit == Run(program, Boot(init), fuel)
    ensures exit.Halted? ==> forall i :: 0 <= i < |exit.output| ==> exit.output[i] < 8
  {
    RunOutput(program, Boot(init), fuel);
    if |program| == 0 {
      return Crashed;
    }
    var r: (nat, nat, nat) := init;
    var ip: nat := 0;
    var output: seq<nat> := [];
    var n: nat := 0;
    while true
      invariant n <= fuel
      invariant Run(program, Machine(r.0, r.1, r.2, ip, output), fuel - n) == Run(program, Boot(init), fuel)
      decreases fuel - n
    {
      // Account for the operand as well
      if ip >= |program| - 1 {
        break;
      }
      if n == fuel {
        return Unfinished;
      }
      var m := Machine(r.0, r.1, r.2, ip, output);
      var opcode := program[ip];
      var operand := program[ip + 1];
      var combo := Combo(m, operand);
      if opcode == 0 {
        // adv
        if combo.None? { return Crashed; }
        r := (Shr(r.0, combo.value), r.1, r.2);
        ip := ip + 2;
      } else if opcode == 1 {
        // bxl
        r := (r.0, Xor(r.1, operand), r.2);
        ip := ip + 2;
      } else if opcode == 2 {
        // bst
        if combo.None? { return Crashed; }
        r := (r.0, combo.value % 8, r.2);
        ip := ip + 2;
      } else if opcode == 3 {
        // jnz
        if r.0 != 0 {
          ip := operand;
        } else {
          ip := ip + 2;
        }
      } else if opcode == 4 {
        // bxc
        r := (r.0, Xor(r.1, r.2), r.2);
        ip := ip + 2;
      } else if opcode == 5 {
        // out
        if combo.None? { return Crashed; }
        output := output + [combo.value % 8];
        ip := ip + 2;
      } else if opcode == 6 {
        // bdv
        if combo.None? { return Crashed; }
        r := (r.0, Shr(r.0, combo.value), r.2);
        ip := ip + 2;
      } else if opcode == 7 {
        // cdv
        if combo.None? { return Crashed; }
        r := (r.0, r.1, Shr(r.0, combo.value));
        ip := ip + 2;
      } else {
        return Crashed;
      }
      assert Step(program, m) == Some(Machine(r.0, r.1, r.2, ip, output));
      n := n + 1;
    }
    return Halted(output);
  }

  /** The decimal digit of a value below 10. */
  function Digit(d: nat): char
    requires d < 10
  {
    (48 + d) as char
  }

  /** The output joined with commas. */
  function Join(out: seq<nat>): string
    requires forall i :: 0 <= i < |out| ==> out[i] < 10
  {
    if |out| == 0 then ""
    else if |out| == 1 then [Digit(out[0])]
    else [Digit(out[0]), ','] + Join(out[1..])
  }

  /** Reads back a comma-joined list of single digits. */
  function Unjoin(text: string): seq<nat>
    decreases |text|
  {
    if |text| == 0 then []
    else
      var d := if '0' <= text[0] <= '9' then text[0] as nat - 48 else 0;
      if |text| == 1 then [d] else [d] + Unjoin(text[2..])
  }

  /** The joined output can be read back. */
  lemma {:induction false} JoinUnjoin(out: seq<nat>)
    requires forall i :: 0 <= i < |out| ==> out[i] < 10
    ensures Unjoin(Join(out)) == out
    ensures |out| > 0 ==> |Join(out)| == 2 * |out| - 1
  {
    if |out| > 1 {
      JoinUnjoin(out[1..]);
      assert ([Digit(out[0]), ','] + Join(out[1..]))[2..] == Join(out[1..]);
    }
  }

  /** `part1`: the output of the program, joined with commas; None when
      the run panics or does not halt within `fuel` instructions. */
  method Part1(init: (nat, nat, nat), program: seq<nat>, fuel: nat) returns (text: Option<string>)
    ensures Run(program, Boot(init), fuel).Halted? <==> text.Some?
    ensures text.Some? ==> var out := Run(program, Boot(init), fuel).output;
              && (forall i :: 0 <= i < |out| ==> out[i] < 8)
              && text.value == Join(out)
    ensures text.Some? ==> Unjoin(text.value) == Run(program, Boot(init), fuel).output
  {
    var exit := RunProgram(init, program, fuel);
    if exit.Halted? {
      JoinUnjoin(exit.output);
      text := Some(Join(exit.output));
    } else {
      text := None;
    }
  }

  /** What `run_program2` answers for a run: None when the run panics, does
      not halt, or outputs a different number of values than the program
      has; otherwise whether the last index + 1 outputs equal the last
      index + 1 values of the program. At the last index that is whether
      the program output itself. */
  function Verdict(program: seq<nat>, exit: Exit, index: nat): (r: Option<bool>)
    requires index < |program|
    ensures r.Some? <==> exit.Halted? && |exit.output| == |program|
    ensures index == |program| - 1 ==> (r == Some(true) <==> exit == Halted(program))
  {
    if exit.Halted? && |exit.output| == |program| then
      var from := |program| - 1 - index;
      assert from == 0 ==> exit.output[from..] == exit.output && program[from..] == program;
      Some(exit.output[from..] == program[from..])
    else None
  }

  /** `run_program2`: the run of `run_program`, then the comparison of the
      last index + 1 outputs with the program. */
  method RunProgram2(init: (nat, nat, nat), program: seq<nat>, index: nat, fuel: nat) returns (verdict: Option<bool>)
    requires index < |program|
    ensures verdict == Verdict(program, Run(program, Boot(init), fuel), index)
  {
    var exit := RunProgram(init, program, fuel);
    if !exit.Halted? || |exit.output| != |program| {
      return None;
    }
    var same := SameFrom(exit.output, program, |program| - 1 - index);
    return Some(same);
  }

  /** The comparison loop of `run_program2`: the outputs from `from` on,
      one by one against the program, stopping at the first difference. */
  method SameFrom(output: seq<nat>, program: seq<nat>, from: nat) returns (same: bool)
    requires |output| == |program| && from <= |program|
    ensures same <==> output[from..] == program[from..]
  {
    for i := from to |program|
      invariant output[from..i] == program[from..i]
    {
      if program[i] != output[i] {
        assert output[from..][i - from] != program[from..][i - from];
        return false;
      }
      assert output[from..i + 1] == output[from..i] + [output[i]];
      assert program[from..i + 1] == program[from..i] + [program[i]];
    }
    assert output[from..] == output[from..|program|];
    assert program[from..] == program[from..|program|];
    return true;
  }

  function Pow8(k: nat): (r: nat)
    ensures r > 0
  {
    if k == 0 then 1 else 8 * Pow8(k - 1)
  }

  /** `x >> 3k`: x without its k lowest 3-bit groups. */
  function Top(x: nat, k: nat): nat
  {
    if k == 0 then x else Top(x / 8, k - 1)
  }

  /** The 3-bit group k of x (bits 3k to 3k+2). */
  function Group(x: nat, k: nat): nat
  {
    Top(x, k) % 8
  }

  /** A with its 3-bit group k replaced by i, as
      `(a & !(0b111 << 3k)) | (i << 3k)` computes it. */
  function SetGroup(a: nat, k: nat, i: nat): nat
    requires i < 8
  {
    if k == 0 then a / 8 * 8 + i else SetGroup(a / 8, k - 1, i) * 8 + a % 8
  }

  /** How `find_quine` ends: with a value of A, with no value, or on a
      run that panics or does not halt. */
  datatype Search = Found(a: nat) | NotFound | Stuck

  /** The search of `find_quine` from index: past the last index A is the
      answer; otherwise the values 0 to 7 of the group of this index are
      tried in order (0 is skipped for the top group). An answer makes
      the program output itself. */
  function Quine(init: (nat, nat, nat), program: seq<nat>, index: nat, fuel: nat): (s: Search)
    ensures s.Found? && index < |program| ==> Run(program, Boot((s.a, init.1, init.2)), fuel) == Halted(program)
    decreases |program| - index, 1
  {
    if index >= |program| then Found(init.0)
    else Candidates(init, program, index, 0, fuel)
  }

  /** The candidates i, i + 1, ..., 7 for the group of index. */
  function Candidates(init: (nat, nat, nat), program: seq<nat>, index: nat, i: nat, fuel: nat): (s: Search)
    requires index < |program|
    ensures s.Found? ==> Run(program, Boot((s.a, init.1, init.2)), fuel) == Halted(program)
    decreases |program| - index, 0, 8 - i
  {
    if i >= 8 then NotFound
    else if index == 0 && i == 0 then Candidates(init, program, index, i + 1, fuel)
    else
      var r := (SetGroup(init.0, |program| - 1 - index, i), init.1, init.2);
      match Verdict(program, Run(program, Boot(r), fuel), index)
      case None => Stuck
      case Some(false) => Candidates(init, program, index, i + 1, fuel)
      case Some(true) =>
        match Quine(r, program, index + 1, fuel)
        case Found(a) => Found(a)
        case NotFound => Candidates(init, program, index, i + 1, fuel)
        case Stuck => Stuck
  }

  /** `find_quine`. */
  method FindQuine(init: (nat, nat, nat), program: seq<nat>, index: nat, fuel: nat) returns (result: Search)
    ensures result == Quine(init, program, index, fuel)
    decreases |program| - index
  {
    if index >= |program| {
      return Found(init.0);
    }
    var k := |program| - 1 - index;
    for i := 0 to 8
      invariant Quine(init, program, index, fuel) == Candidates(init, program, index, i, fuel)
    {
      if index == 0 && i == 0 {
        continue;
      }
      var r := (SetGroup(init.0, k, i), init.1, init.2);
      var verdict := RunProgram2(r, program, index, fuel);
      if verdict.None? {
        return Stuck;
      }
      if verdict.value {
        var found := FindQuine(r, program, index + 1, fuel);
        if !found.NotFound? {
          return found;
        }
      }
    }
    return NotFound;
  }

  /** The group k of `SetGroup(a, k, i)` is i; the groups below k and
      all of a above group k are unchanged. */
  lemma {:induction false} SetGroupGroups(a: nat, k: nat, i: nat)
    requires i < 8
    ensures Group(SetGroup(a, k, i), k) == i
    ensures Top(SetGroup(a, k, i), k + 1) == Top(a, k + 1)
    ensures forall j :: 0 <= j < k ==> Group(SetGroup(a, k, i), j) == Group(a, j)
  {
    if k > 0 {
      var y := SetGroup(a / 8, k - 1, i);
      var x := SetGroup(a, k, i);
      SetGroupGroups(a / 8, k - 1, i);
      assert x / 8 == y;
      forall j | 0 <= j < k
        ensures Group(x, j) == Group(a, j)
      {
        if j > 0 {
          assert Group(x, j) == Group(y, j - 1);
        }
      }
    }
  }

  /** Dropping k + 1 groups is dropping k groups and then one more. */
  lemma {:induction false} TopStep(x: nat, k: nat)
    ensures Top(x, k + 1) == Top(x, k) / 8
  {
    if k > 0 {
      TopStep(x / 8, k - 1);
    }
  }

  /** x has at most k groups iff nothing is left above them. */
  lemma {:induction false} TopBound(x: nat, k: nat)
    ensures Top(x, k) == 0 <==> x < Pow8(k)
  {
    if k > 0 {
      TopBound(x / 8, k - 1);
    }
  }

  /** The search only rewrites the groups of index and after: the groups
      above are those of the A it started from. */
  lemma {:induction false} QuineKeepsHighGroups(init: (nat, nat, nat), program: seq<nat>, index: nat, fuel: nat)
    requires index <= |program| && Quine(init, program, index, fuel).Found?
    ensures Top(Quine(init, program, index, fuel).a, |program| - index) == Top(init.0, |program| - index)
    decreases |program| - index, 1
  {
    if index < |program| {
      CandidatesKeepHighGroups(init, program, index, 0, fuel);
    }
  }

  lemma {:induction false} CandidatesKeepHighGroups(init: (nat, nat, nat), program: seq<nat>, index: nat, i: nat, fuel: nat)
    requires index < |program| && Candidates(init, program, index, i, fuel).Found?
    ensures Top(Candidates(init, program, index, i, fuel).a, |program| - index) == Top(init.0, |program| - index)
    ensures index == 0 ==> Group(Candidates(init, program, index, i, fuel).a, |program| - 1) != 0
    decreases |program| - index, 0, 8 - i
  {
    var k := |program| - 1 - index;
    if index == 0 && i == 0 {
      CandidatesKeepHighGroups(init, program, index, i + 1, fuel);
    } else {
      var r := (SetGroup(init.0, k, i), init.1, init.2);
      var exit := Run(program, Boot(r), fuel);
      if Verdict(program, exit, index) == Some(false) || Quine(r, program, index + 1, fuel).NotFound? {
        CandidatesKeepHighGroups(init, program, index, i + 1, fuel);
      } else {
        var a := Quine(r, program, index + 1, fuel).a;
        QuineKeepsHighGroups(r, program, index + 1, fuel);
        SetGroupGroups(init.0, k, i);
        TopStep(a, k);
        TopStep(r.0, k);
      }
    }
  }

  /** `part2`: the search from A = 0. Its answer makes the program output
      itself, and has as many octal digits as the program has values. */
  method Part2(b: nat, c: nat, program: seq<nat>, fuel: nat) returns (result: Search)
    requires |program| > 0
    ensures result == Quine((0, b, c), program, 0, fuel)
    ensures result.Found? ==> Run(program, Boot((result.a, b, c)), fuel) == Halted(program)
    ensures result.Found? ==> Pow8(|program| - 1) <= result.a < Pow8(|program|)
  {
    result := FindQuine((0, b, c), program, 0, fuel);
    if result.Found? {
      CandidatesKeepHighGroups((0, b, c), program, 0, 0, fuel);
      TopBound(0, |program|);
      TopBound(result.a, |program|);
      TopBound(result.a, |program| - 1);
    }
  }
}
