/**
 * The distribution of the sum of N dice with F faces, computed as a Markov
 * chain: state s is "the running sum is s", a roll moves from s to one of
 * s + 1 .. s + F with probability 1/F each, and the distribution after N
 * rolls is row 0 of the N-th power of the transition matrix.
 *
 * numpy's matrices are sequences of rows; `numpy.matmul` is the ordinary
 * matrix product over exact reals.
 */
module MarkovDice {
  import opened Wrappers
  import opened Text

  // ---------------------------------------------------------------------
  // Finite sums
  // ---------------------------------------------------------------------

  /** f(0) + f(1) + ... + f(n - 1). */
  function Sigma(n: nat, f: nat -> real): real
  {
    if n == 0 then 0.0 else Sigma(n - 1, f) + f(n - 1)
  }

  lemma {:induction false} SigmaExt(n: nat, f: nat -> real, g: nat -> real)
    requires forall i: nat :: i < n ==> f(i) == g(i)
    ensures Sigma(n, f) == Sigma(n, g)
  {
    if n > 0 {
      SigmaExt(n - 1, f, g);
    }
  }

  lemma {:induction false} SigmaZero(n: nat, f: nat -> real)
    requires forall i: nat :: i < n ==> f(i) == 0.0
    ensures Sigma(n, f) == 0.0
  {
    if n > 0 {
      SigmaZero(n - 1, f);
    }
  }

  lemma {:induction false} SigmaAdd(n: nat, f: nat -> real, g: nat -> real, h: nat -> real)
    requires forall i: nat :: i < n ==> h(i) == f(i) + g(i)
    ensures Sigma(n, h) == Sigma(n, f) + Sigma(n, g)
  {
    if n > 0 {
      SigmaAdd(n - 1, f, g, h);
    }
  }

  lemma {:induction false} SigmaScale(n: nat, c: real, f: nat -> real, h: nat -> real)
    requires forall i: nat :: i < n ==> h(i) == c * f(i)
    ensures Sigma(n, h) == c * Sigma(n, f)
  {
    if n > 0 {
      SigmaScale(n - 1, c, f, h);
    }
  }

  /** A sum with a single non-zero term is that term. */
  lemma {:induction false} SigmaOne(n: nat, f: nat -> real, p: nat)
    requires p < n
    requires forall i: nat :: i < n && i != p ==> f(i) == 0.0
    ensures Sigma(n, f) == f(p)
  {
    if n - 1 == p {
      SigmaZero(n - 1, f);
    } else {
      SigmaOne(n - 1, f, p);
    }
  }

  /** The order of a double sum does not matter. */
  lemma {:induction false} SigmaSwap(m: nat, n: nat, f: (nat, nat) -> real)
    ensures Sigma(m, (k: nat) => Sigma(n, (j: nat) => f(j, k))) == Sigma(n, (j: nat) => Sigma(m, (k: nat) => f(j, k)))
  {
    if n > 0 {
      SigmaSwap(m, n - 1, f);
      SigmaAdd(m, (k: nat) => Sigma(n - 1, (j: nat) => f(j, k)), (k: nat) => f(n - 1, k), (k: nat) => Sigma(n, (j: nat) => f(j, k)));
    } else {
      SigmaZero(m, (k: nat) => Sigma(n, (j: nat) => f(j, k)));
    }
  }

  // ---------------------------------------------------------------------
  // Matrices
  // ---------------------------------------------------------------------

  type Matrix = seq<seq<real>>

  predicate Square(m: Matrix, size: nat)
  {
    |m| == size && forall i :: 0 <= i < size ==> |m[i]| == size
  }

  /** The entry at row i, column j; 0 outside the matrix. */
  function Get(m: Matrix, i: nat, j: nat): real
  {
    if i < |m| && j < |m[i]| then m[i][j] else 0.0
  }

  /**
   * `numpy.matmul(a, b)` for a matrix `a` with `n` columns and an n-by-n matrix
   * `b`. The ensures only unfold the body for the proofs; row sums of a
   * product are stated by `MulRowSum`.
   */
  function MatMul(a: Matrix, b: Matrix, n: nat): (r: Matrix)
    ensures |r| == |a| && forall i :: 0 <= i < |r| ==> |r[i]| == n
    ensures forall i, k :: 0 <= i < |a| && 0 <= k < n ==>
      Get(r, i, k) == Sigma(n, (j: nat) => Get(a, i, j) * Get(b, j, k))
  {
    seq(|a|, i requires 0 <= i < |a| => seq(n, k requires 0 <= k < n => Sigma(n, (j: nat) => Get(a, i, j) * Get(b, j, k))))
  }

  /** t * t * ... * t, k factors, multiplied from the left as the loop does. */
  function MatPow(t: Matrix, k: nat, n: nat): (r: Matrix)
    requires k >= 1 && Square(t, n)
    ensures Square(r, n)
  {
    if k == 1 then t else MatMul(MatPow(t, k - 1, n), t, n)
  }

  /** The sum of row r of an n-column matrix. */
  function RowSum(m: Matrix, r: nat, n: nat): real
  {
    Sigma(n, (c: nat) => Get(m, r, c))
  }

  /** Row r of a product sums to the rows of `b` weighted by row r of `a`. */
  lemma MulRowSum(a: Matrix, b: Matrix, n: nat, r: nat)
    requires r < |a|
    ensures RowSum(MatMul(a, b, n), r, n) == Sigma(n, (j: nat) => Get(a, r, j) * RowSum(b, j, n))
  {
    var p := MatMul(a, b, n);
    var f := (j: nat, c: nat) => Get(a, r, j) * Get(b, j, c);
    forall c: nat | c < n ensures Get(p, r, c) == Sigma(n, (j: nat) => f(j, c)) {
      SigmaExt(n, (j: nat) => Get(a, r, j) * Get(b, j, c), (j: nat) => f(j, c));
    }
    SigmaExt(n, (c: nat) => Get(p, r, c), (k: nat) => Sigma(n, (j: nat) => f(j, k)));
    SigmaSwap(n, n, f);
    forall j: nat | j < n ensures Sigma(n, (k: nat) => f(j, k)) == Get(a, r, j) * RowSum(b, j, n) {
      SigmaScale(n, Get(a, r, j), (c: nat) => Get(b, j, c), (k: nat) => f(j, k));
    }
    SigmaExt(n, (j: nat) => Sigma(n, (k: nat) => f(j, k)), (j: nat) => Get(a, r, j) * RowSum(b, j, n));
  }

  // ---------------------------------------------------------------------
  // The transition matrix
  // ---------------------------------------------------------------------

  /**
   * `list_of_prob`: probability 1/F for each of the F faces (none when F <= 0).
   * The ensures only unfold the body for the proofs; the total is stated by
   * `FaceMass`.
   */
  function FaceProbabilities(faces: int): (r: seq<real>)
    ensures |r| == if faces > 0 then faces else 0
    ensures forall i :: 0 <= i < |r| ==> r[i] * faces as real == 1.0
  {
    if faces > 0 then seq(faces, _ => 1.0 / faces as real) else []
  }

  /** A sum of n equal terms. */
  lemma {:induction false} SigmaConst(n: nat, c: real, f: nat -> real)
    requires forall i: nat :: i < n ==> f(i) == c
    ensures Sigma(n, f) == n as real * c
  {
    if n > 0 {
      SigmaConst(n - 1, c, f);
      var m := (n - 1) as real;
      assert n as real == m + 1.0;
      assert (m + 1.0) * c == m * c + c;
    }
  }

  /** The face probabilities of a die with at least one face add up to 1. */
  lemma FaceMass(faces: int)
    requires faces >= 1
    ensures var p := FaceProbabilities(faces);
      |p| == faces && Sigma(faces, (i: nat) => if i < |p| then p[i] else 0.0) == 1.0
  {
    var p := FaceProbabilities(faces);
    SigmaConst(faces, 1.0 / faces as real, (i: nat) => if i < |p| then p[i] else 0.0);
  }

  /** The probability of moving from state `row` to state `col` in one roll. */
  function Band(faces: int, row: nat, col: nat): real
  {
    if faces > 0 && row + 1 <= col <= row + faces then 1.0 / faces as real else 0.0
  }

  /**
   * `trans` once filled: states by states, banded. The ensures only unfold the
   * body for the proofs; its row sums are stated by `TransitionRowSum`.
   */
  function Transition(states: nat, faces: int): (t: Matrix)
    ensures Square(t, states)
    ensures forall r: nat, c: nat :: Get(t, r, c) == if r < states && c < states then Band(faces, r, c) else 0.0
  {
    seq(states, r requires 0 <= r < states => seq(states, c requires 0 <= c < states => Band(faces, r, c)))
  }

  /** How many of the columns below n lie in the band of `row`. */
  function InBand(faces: nat, row: nat, n: nat): nat
  {
    if n <= row + 1 then 0 else if n - row - 1 >= faces then faces else n - row - 1
  }

  lemma {:induction false} BandPrefix(faces: nat, row: nat, n: nat)
    requires faces > 0
    ensures Sigma(n, (c: nat) => Band(faces, row, c)) == InBand(faces, row, n) as real * (1.0 / faces as real)
  {
    if n > 0 {
      BandPrefix(faces, row, n - 1);
    }
  }

  /**
   * A row whose band fits below the state count sums to 1; a later row is
   * cut off at the last state and sums to the share of its band that fits.
   */
  lemma TransitionRowSum(states: nat, faces: int, row: nat)
    requires faces > 0 && row < states
    ensures row + faces < states ==> RowSum(Transition(states, faces), row, states) == 1.0
    ensures row + faces >= states ==>
      RowSum(Transition(states, faces), row, states) == (states - 1 - row) as real / faces as real
  {
    var t := Transition(states, faces);
    SigmaExt(states, (c: nat) => Get(t, row, c), (c: nat) => Band(faces, row, c));
    BandPrefix(faces, row, states);
  }

  /**
   * After k rolls from state r only the states r + k .. r + k * F can be
   * reached: every other entry of row r of the k-th power is 0.
   */
  lemma {:induction false} PowSupport(states: nat, faces: int, k: nat, r: nat, c: nat)
    requires k >= 1
    requires c < r + k || c > r + k * faces
    ensures Get(MatPow(Transition(states, faces), k, states), r, c) == 0.0
  {
    var t := Transition(states, faces);
    if k > 1 && r < states && c < states {
      var p := MatPow(t, k - 1, states);
      assert k * faces == (k - 1) * faces + faces;
      forall j: nat | j < states ensures Get(p, r, j) * Get(t, j, c) == 0.0 {
        if j < r + (k - 1) || j > r + (k - 1) * faces {
          PowSupport(states, faces, k - 1, r, j);
        }
      }
      SigmaZero(states, (j: nat) => Get(p, r, j) * Get(t, j, c));
    }
  }

  /**
   * After k rolls from state r the probabilities sum to 1, as long as the
   * largest reachable state r + k * F is a state of the chain.
   */
  lemma {:induction false} PowMass(states: nat, faces: int, k: nat, r: nat)
    requires k >= 1 && faces > 0 && r + k * faces < states
    ensures RowSum(MatPow(Transition(states, faces), k, states), r, states) == 1.0
  {
    var t := Transition(states, faces);
    if k == 1 {
      TransitionRowSum(states, faces, r);
    } else {
      var p := MatPow(t, k - 1, states);
      assert k * faces == (k - 1) * faces + faces;
      MulRowSum(p, t, states, r);
      forall j: nat | j < states ensures Get(p, r, j) * RowSum(t, j, states) == Get(p, r, j) {
        if j > r + (k - 1) * faces || j < r + (k - 1) {
          PowSupport(states, faces, k - 1, r, j);
        } else {
          TransitionRowSum(states, faces, j);
        }
      }
      SigmaExt(states, (j: nat) => Get(p, r, j) * RowSum(t, j, states), (c: nat) => Get(p, r, c));
      PowMass(states, faces, k - 1, r);
    }
  }

  // ---------------------------------------------------------------------
  // The script
  // ---------------------------------------------------------------------

  /**
   * `input_vec`: a single row with 1 at state 0. The ensures only unfold the
   * body for the proofs; what it selects is stated by `UnitSelects`.
   */
  function InputVector(states: nat): (v: Matrix)
    ensures |v| == 1 && |v[0]| == states
    ensures forall j: nat :: Get(v, 0, j) == if j == 0 && states > 0 then 1.0 else 0.0
  {
    [seq(states, j => if j == 0 then 1.0 else 0.0)]
  }

  /** Multiplying the unit row by a matrix selects the matrix's row 0. */
  lemma UnitSelects(states: nat, m: Matrix)
    requires states >= 1 && Square(m, states)
    ensures MatMul(InputVector(states), m, states)[0] == m[0]
  {
    var v := InputVector(states);
    var o := MatMul(v, m, states);
    forall c | 0 <= c < states ensures o[0][c] == m[0][c] {
      SigmaOne(states, (j: nat) => Get(v, 0, j) * Get(m, j, c), 0);
      assert Get(o, 0, c) == o[0][c];
    }
  }

  /** `output_vec[0]` for `dice` rolls of a die with `faces` faces. */
  function Output(dice: int, faces: int): (out: seq<real>)
    requires dice * faces + 1 >= 1
    ensures |out| == dice * faces + 1
  {
    var states := dice * faces + 1;
    var t := Transition(states, faces);
    MatMul(InputVector(states), MatPow(t, if dice > 1 then dice else 1, states), states)[0]
  }

  /**
   * For N >= 1 dice with F >= 1 faces the output is a distribution: its
   * entries sum to 1, and the states below N, which are not printed, carry
   * no probability.
   */
  lemma OutputDistribution(dice: int, faces: int)
    requires dice >= 1 && faces >= 1
    ensures dice * faces + 1 >= 1
    ensures RowSum([Output(dice, faces)], 0, dice * faces + 1) == 1.0
    ensures forall c :: 0 <= c < dice ==> Output(dice, faces)[c] == 0.0
  {
    OutputRow(dice, faces);
    PowRowZero(dice * faces + 1, faces, dice);
  }

  /** The output vector is row 0 of the N-th power of the transition matrix. */
  lemma OutputRow(dice: int, faces: int)
    requires dice >= 1 && faces >= 1
    ensures dice * faces + 1 >= 1
    ensures Output(dice, faces) == MatPow(Transition(dice * faces + 1, faces), dice, dice * faces + 1)[0]
  {
    var states := dice * faces + 1;
    UnitSelects(states, MatPow(Transition(states, faces), dice, states));
  }

  /** Row 0 of the k-th power sums to 1 and is 0 below k, when state k * F exists. */
  lemma PowRowZero(states: nat, faces: int, k: nat)
    requires k >= 1 && faces >= 1 && k * faces < states
    ensures var row := MatPow(Transition(states, faces), k, states)[0];
      |row| == states && RowSum([row], 0, states) == 1.0 && forall c :: 0 <= c < k ==> row[c] == 0.0
  {
    var p := MatPow(Transition(states, faces), k, states);
    var row := p[0];
    SigmaExt(states, (c: nat) => Get([row], 0, c), (c: nat) => Get(p, 0, c));
    PowMass(states, faces, k, 0);
    assert k <= k * faces;
    forall c | 0 <= c < k ensures row[c] == 0.0 {
      PowSupport(states, faces, k, 0, c);
    }
  }

  /** One row of the inner fill loop: `row[count + i] = list_of_prob[i]` where in range. */
  method FillRow(trans: array2<real>, states: nat, row: nat, count: nat, probs: seq<real>)
    requires trans.Length0 == states && trans.Length1 == states && row < states
    requires forall c :: 0 <= c < states ==> trans[row, c] == 0.0
    modifies trans
    ensures forall r, c :: 0 <= r < states && 0 <= c < states && r != row ==> trans[r, c] == old(trans[r, c])
    ensures forall c :: 0 <= c < states ==>
      trans[row, c] == if count <= c < count + |probs| then probs[c - count] else 0.0
  {
    for i := 0 to |probs|
      invariant forall r, c :: 0 <= r < states && 0 <= c < states && r != row ==> trans[r, c] == old(trans[r, c])
      invariant forall c :: 0 <= c < states ==>
        trans[row, c] == if count <= c < count + i then probs[c - count] else 0.0
    {
      if count + i < states {
        trans[row, count + i] := probs[i];
      }
    }
  }

  /** `trans` built by the fill loop: the running `count` starts each row's band one past the row. */
  method BuildTransition(states: nat, faces: int) returns (trans: array2<real>)
    ensures trans.Length0 == states && trans.Length1 == states
    ensures forall r, c :: 0 <= r < states && 0 <= c < states ==> trans[r, c] == Band(faces, r, c)
  {
    var probs := FaceProbabilities(faces);
    trans := new real[states, states]((r, c) => 0.0);
    var count := 1;
    for row := 0 to states
      invariant count == row + 1
      invariant forall r, c :: 0 <= r < row && 0 <= c < states ==> trans[r, c] == Band(faces, r, c)
      invariant forall r, c :: row <= r < states && 0 <= c < states ==> trans[r, c] == 0.0
    {
      FillRow(trans, states, row, count, probs);
      count := count + 1;
    }
  }

  /** The rows of a numpy matrix as a value. */
  function Rows(a: array2<real>): (m: Matrix)
    reads a
    ensures Square(m, a.Length0) || a.Length0 != a.Length1
  {
    seq(a.Length0, i requires 0 <= i < a.Length0 reads a =>
      seq(a.Length1, j requires 0 <= j < a.Length1 reads a => a[i, j]))
  }

  /** `final_trans = trans.copy()` and then N - 1 multiplications by `trans`. */
  method Power(t: Matrix, states: nat, dice: int) returns (final: Matrix)
    requires Square(t, states)
    ensures final == MatPow(t, if dice > 1 then dice else 1, states)
  {
    final := t;
    var i := 0;
    while i < dice - 1
      invariant 0 <= i && (i == 0 || i <= dice - 1)
      invariant final == MatPow(t, i + 1, states)
    {
      final := MatMul(final, t, states);
      i := i + 1;
    }
  }

  /** A printed line: a state and its probability in percent. */
  datatype Line = Line(state: nat, percent: real)

  /** The first printed state: N, clipped to the states there are. */
  function FirstShown(dice: int, n: nat): (lo: nat)
    ensures lo <= n
  {
    if dice < 0 then 0 else if dice > n then n else dice
  }

  /**
   * What the report loop prints and sums: one line for each state from N on,
   * in order, with the probability times 100; the total runs over every state.
   */
  predicate Reports(out: seq<real>, dice: int, lines: seq<Line>, total: real)
  {
    var lo := FirstShown(dice, |out|);
    && |lines| == |out| - lo
    && (forall m :: 0 <= m < |lines| ==> lines[m] == Line(lo + m, out[lo + m] * 100.0))
    && total == RowSum([out], 0, |out|)
  }

  /** The report loop over `output_vec[0]`. */
  method Report(out: seq<real>, dice: int) returns (lines: seq<Line>, total: real)
    ensures Reports(out, dice, lines, total)
  {
    var state := 0;
    total := 0.0;
    lines := [];
    for idx := 0 to |out|
      invariant state == idx
      invariant |lines| == idx - FirstShown(dice, idx)
      invariant forall m :: 0 <= m < |lines| ==>
        lines[m] == Line(FirstShown(dice, |out|) + m, out[FirstShown(dice, |out|) + m] * 100.0)
      invariant total == RowSum([out], 0, idx)
    {
      var elem := out[idx];
      if state >= dice {
        lines := lines + [Line(state, elem * 100.0)];
      }
      state := state + 1;
      total := total + elem;
    }
  }

  /** Lines 17-46 once N and F are known and N * F + 1 >= 1. */
  method Distribution(dice: int, faces: int) returns (lines: seq<Line>, total: real)
    requires dice * faces + 1 >= 1
    ensures Reports(Output(dice, faces), dice, lines, total)
    ensures dice >= 1 && faces >= 1 ==> total == 1.0
  {
    var states := dice * faces + 1;
    var trans := BuildTransition(states, faces);
    var t := Rows(trans);
    assert t == Transition(states, faces) by {
      forall r | 0 <= r < states ensures t[r] == Transition(states, faces)[r] {
        assert Get(Transition(states, faces), r, 0) == Band(faces, r, 0);
      }
    }
    var final := Power(t, states, dice);
    var outputVec := MatMul(InputVector(states), final, states);
    assert outputVec[0] == Output(dice, faces);
    lines, total := Report(outputVec[0], dice);
    if dice >= 1 && faces >= 1 {
      OutputDistribution(dice, faces);
    }
  }

  /** How the script ended. */
  datatype Outcome =
    | Usage                 // too few arguments: usage message, `sys.exit(-1)`
    | ValueError            // an argument is not an integer, or N * F + 1 < 0
    | IndexError            // N * F + 1 == 0: `input_vec[0][0]` is out of range
    | Printed(dice: int, faces: int, lines: seq<Line>, total: real)

  /** The process exit status of an outcome; an uncaught exception exits with 1. */
  function ExitStatus(o: Outcome): int
  {
    match o
    case Usage => -1
    case Printed(_, _, _, _) => 0
    case _ => 1
  }

  /** The whole script on `sys.argv` (program name first). */
  method Run(argv: seq<string>) returns (outcome: Outcome)
    ensures outcome == Usage <==> |argv| < 3
    ensures outcome.ValueError? <==>
      |argv| >= 3 && (ParseInt(argv[1]).None? || ParseInt(argv[2]).None?
                      || ParseInt(argv[1]).value * ParseInt(argv[2]).value + 1 < 0)
    ensures outcome.IndexError? <==>
      |argv| >= 3 && ParseInt(argv[1]).Some? && ParseInt(argv[2]).Some?
      && ParseInt(argv[1]).value * ParseInt(argv[2]).value + 1 == 0
    ensures outcome.Printed? ==>
      && Some(outcome.dice) == ParseInt(argv[1]) && Some(outcome.faces) == ParseInt(argv[2])
      && outcome.dice * outcome.faces + 1 >= 1
      && Reports(Output(outcome.dice, outcome.faces), outcome.dice, outcome.lines, outcome.total)
    ensures ExitStatus(outcome) == -1 <==> |argv| < 3
    ensures outcome.Printed? && outcome.dice >= 1 && outcome.faces >= 1 ==> outcome.total == 1.0
  {
    if |argv| < 3 {
      return Usage;
    }
    var n := ParseInt(argv[1]);
    var f := ParseInt(argv[2]);
    if n.None? || f.None? {
      return ValueError;
    }
    var dice, faces := n.value, f.value;
    var states := dice * faces + 1;
    if states < 0 {
      return ValueError;
    }
    if states == 0 {
      return IndexError;
    }
    var lines, total := Distribution(dice, faces);
    outcome := Printed(dice, faces, lines, total);
  }
}
