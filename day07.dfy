/** Day 7: calibration equations. Each equation is a target and a list of
    values; it holds when `+` and `*`, placed between the values and
    evaluated strictly left to right, give the target. `can_make` works
    right to left from the last value, undoing an addition by subtraction
    and a multiplication by division, and the answer sums the targets of
    the equations that hold. */
module Day07 {

  datatype Op = Add | Mul

  function Apply(op: Op, a: nat, b: nat): nat
  {
    match op
    case Add => a + b
    case Mul => a * b
  }

  /** The left-to-right value of the values with ops between them. */
  function Eval(values: seq<nat>, ops: seq<Op>): nat
    requires |values| == |ops| + 1
    decreases |ops|
  {
    if |ops| == 0 then values[0]
    else Apply(ops[|ops| - 1], Eval(values[..|values| - 1], ops[..|ops| - 1]), values[|values| - 1])
  }

  /** Some choice of operators makes the values evaluate to the target. */
  ghost predicate Solvable(target: nat, values: seq<nat>)
  {
    |values| >= 1 && exists ops: seq<Op> :: |ops| == |values| - 1 && Eval(values, ops) == target
  }

  /** Every value is at least 1: `result % cur` needs a non-zero `cur`. */
  predicate Positive(values: seq<nat>)
  {
    forall i :: 0 <= i < |values| ==> values[i] > 0
  }

  /** `can_make` as written: a remaining result of 0 is accepted at once,
      whatever values are still unused. */
  predicate CanMakeAsWritten(result: nat, values: seq<nat>, index: int): (r: bool)
    requires Positive(values) && -1 <= index < |values|
    ensures CanMake(result, values, index) ==> r
    decreases index + 1
  {
    if result == 0 then true
    else if index < 0 then false
    else
      var cur := values[index];
      || (cur <= result && CanMakeAsWritten(result - cur, values, index - 1))
      || (result % cur == 0 && CanMakeAsWritten(result / cur, values, index - 1))
  }

  /** `can_make` with the recursion bottoming out where the source
      evidently means it to: at the first value, which must equal what is
      left of the result. No values make nothing. */
  predicate CanMake(result: nat, values: seq<nat>, index: int): (r: bool)
    requires Positive(values) && -1 <= index < |values|
    ensures r ==> result > 0
    decreases index + 1
  {
    if index < 0 then false
    else if index == 0 then result == values[0]
    else
      var cur := values[index];
      || (cur <= result && CanMake(result - cur, values, index - 1))
      || (result % cur == 0 && CanMake(result / cur, values, index - 1))
  }

  /** a <= b scales to a·c <= b·c for c >= 0. */
  lemma MulLe(a: int, b: int, c: int)
    requires c >= 0
    ensures a <= b ==> a * c <= b * c
  {
    assert b * c - a * c == (b - a) * c;
  }

  /** c > 0 divides e·c exactly, with quotient e. */
  lemma MulDiv(e: nat, c: nat)
    requires c > 0
    ensures (e * c) % c == 0 && (e * c) / c == e
  {
    var q, r := (e * c) / c, (e * c) % c;
    assert e * c == q * c + r;
    MulLe(q + 1, e, c);
    MulLe(e + 1, q, c);
  }

  /** One more value after a solvable prefix: applying either operator
      keeps the equation solvable. */
  lemma Extend(values: seq<nat>, index: nat, rest: nat, op: Op)
    requires 0 < index < |values| && Solvable(rest, values[..index])
    ensures Solvable(Apply(op, rest, values[index]), values[..index + 1])
  {
    var vs := values[..index + 1];
    var ops0: seq<Op> :| |ops0| == index - 1 && Eval(values[..index], ops0) == rest;
    var ops := ops0 + [op];
    assert vs[..index] == values[..index] && ops[..index - 1] == ops0;
    assert Eval(vs, ops) == Apply(op, rest, values[index]);
  }

  /** What the corrected `can_make` accepts is solvable with the values up
      to index. */
  lemma {:induction false} CanMakeSound(result: nat, values: seq<nat>, index: int)
    requires Positive(values) && 0 <= index < |values| && CanMake(result, values, index)
    ensures Solvable(result, values[..index + 1])
    decreases index
  {
    if index == 0 {
      assert Eval(values[..1], []) == result;
    } else {
      var cur := values[index];
      var rest, op;
      if cur <= result && CanMake(result - cur, values, index - 1) {
        rest, op := result - cur, Add;
      } else {
        rest, op := result / cur, Mul;
      }
      CanMakeSound(rest, values, index - 1);
      Extend(values, index, rest, op);
      if op == Mul {
        assert result / cur * cur == result;
      }
    }
  }

  /** Every solvable equation over the values up to index is accepted by
      the corrected `can_make`. */
  lemma {:induction false} CanMakeComplete(result: nat, values: seq<nat>, index: int)
    requires Positive(values) && 0 <= index < |values| && Solvable(result, values[..index + 1])
    ensures CanMake(result, values, index)
    decreases index
  {
    var vs := values[..index + 1];
    var ops: seq<Op> :| |ops| == index && Eval(vs, ops) == result;
    if index > 0 {
      var cur := values[index];
      var rest := Eval(vs[..index], ops[..index - 1]);
      assert vs[..index] == values[..index];
      assert Solvable(rest, values[..index]);
      CanMakeComplete(rest, values, index - 1);
      if ops[index - 1] == Mul {
        MulDiv(rest, cur);
      }
    }
  }

  /** The corrected `can_make`, started at the last value, accepts exactly
      the solvable equations. */
  lemma CanMakeIff(target: nat, values: seq<nat>)
    requires Positive(values)
    ensures CanMake(target, values, |values| - 1) <==> Solvable(target, values)
  {
    if |values| > 0 {
      assert values[..|values|] == values;
      if CanMake(target, values, |values| - 1) {
        CanMakeSound(target, values, |values| - 1);
      }
      if Solvable(target, values) {
        CanMakeComplete(target, values, |values| - 1);
      }
    }
  }

  /** "5: 3 5": 5 - 5 leaves 0 with the 3 unused, so the code as written
      accepts it, although 3 + 5 = 8 and 3 · 5 = 15. */
  lemma AsWrittenAcceptsUnsolvable()
    ensures CanMakeAsWritten(5, [3, 5], 1)
    ensures !Solvable(5, [3, 5])
  {
    assert !CanMake(5, [3, 5], 1);
    CanMakeIff(5, [3, 5]);
  }

  datatype Equation = Equation(target: nat, values: seq<nat>)

  predicate AllPositive(equations: seq<Equation>)
  {
    forall i :: 0 <= i < |equations| ==> Positive(equations[i].values)
  }

  /** `part1` with the corrected `can_make`: the targets of the equations
      it accepts, summed, which are exactly the solvable ones. */
  function Part1(equations: seq<Equation>): (r: nat)
    requires AllPositive(equations)
    ensures r == Calibration(equations)
  {
    if |equations| == 0 then 0
    else
      var e := equations[|equations| - 1];
      CanMakeIff(e.target, e.values);
      Part1(equations[..|equations| - 1]) + (if CanMake(e.target, e.values, |e.values| - 1) then e.target else 0)
  }

  /** `part1` as written, with `can_make` as written: it sums at least the
      targets of the solvable equations. */
  function Part1AsWritten(equations: seq<Equation>): (r: nat)
    requires AllPositive(equations)
    ensures r >= Part1(equations)
  {
    if |equations| == 0 then 0
    else
      var e := equations[|equations| - 1];
      Part1AsWritten(equations[..|equations| - 1]) + (if CanMakeAsWritten(e.target, e.values, |e.values| - 1) then e.target else 0)
  }

  /** On the one equation `5: 3 5`, `part1` as written sums 5 where no
      equation is solvable. */
  lemma Part1AsWrittenOvercounts()
    ensures Part1AsWritten([Equation(5, [3, 5])]) == 5
    ensures Calibration([Equation(5, [3, 5])]) == 0
  {
    var eqs := [Equation(5, [3, 5])];
    assert eqs[..0] == [];
    AsWrittenAcceptsUnsolvable();
  }

  /** The targets of the solvable equations, summed. */
  ghost function Calibration(equations: seq<Equation>): nat
  {
    if |equations| == 0 then 0
    else
      var e := equations[|equations| - 1];
      Calibration(equations[..|equations| - 1]) + (if Solvable(e.target, e.values) then e.target else 0)
  }

  /** The equations of the sample that hold: 190 + 3267 + 292 = 3749. */
  lemma SampleAccepted()
    ensures CanMake(190, [10, 19], 1)
    ensures CanMake(3267, [81, 40, 27], 2)
    ensures CanMake(292, [11, 6, 16, 20], 3)
  {
  }

  /** The other six equations of the sample do not. */
  lemma SampleRejected()
    ensures !CanMake(83, [17, 5], 1)
    ensures !CanMake(156, [15, 6], 1)
    ensures !CanMake(161011, [16, 10, 13], 2)
    ensures !CanMake(192, [17, 8, 14], 2)
    ensures !CanMake(7290, [6, 8, 6, 15], 3)
    ensures !CanMake(21037, [9, 7, 18, 13], 3)
  {
  }
}
