/** The SEIR object of SEIR/seir.py: parameters fixed at construction, the
    infectivity buffer that each right-hand-side call overwrites, the initial
    state set by set_initial_state and the dense solution set by simulate. */
module SeirEngine {
  import opened Wrappers
  import opened Numeric
  import opened SeirModel
  import opened SeirEvaluate

  /** Two tables with the same shape and the same cells are equal. */
  lemma SameTable<T>(a: seq<seq<T>>, b: seq<seq<T>>, n: nat)
    requires |a| == |b| && HasWidth(a, n) && HasWidth(b, n)
    requires forall k, c :: 0 <= k < |a| && 0 <= c < n ==> a[k][c] == b[k][c]
    ensures a == b
  {
    forall k | 0 <= k < |a|
      ensures a[k] == b[k]
    {
      assert |a[k]| == |b[k]| == n;
    }
  }

  /** m @ v computed row by row into a fresh vector. */
  method MatVecOf(m: array2<real>, v: Vector) returns (r: Vector)
    requires m.Length0 == m.Length1 == |v|
    ensures r == MatVec(Contents(m), v)
  {
    var n := |v|;
    r := [];
    var i := 0;
    while i < n
      invariant 0 <= i <= n && |r| == i
      invariant forall k :: 0 <= k < i ==> r[k] == Dot(Contents(m)[k], v)
    {
      var row := Contents(m)[i];
      var acc := 0.0;
      var j := 0;
      while j < n
        invariant 0 <= j <= n
        invariant acc == Dot(row[..j], v[..j])
      {
        assert row[..j + 1][..j] == row[..j] && v[..j + 1][..j] == v[..j];
        acc := acc + m[i, j] * v[j];
        j := j + 1;
      }
      assert row[..n] == row && v[..n] == v;
      r := r + [acc];
      i := i + 1;
    }
  }

  /** The cells of a table as a fresh array, all present. */
  method CellArray(rows: seq<Vector>, n: nat) returns (a: array2<Cell>)
    requires HasWidth(rows, n)
    ensures fresh(a) && a.Length0 == |rows| && a.Length1 == n
    ensures forall k, c :: 0 <= k < |rows| && 0 <= c < n ==> a[k, c] == Some(rows[k][c])
  {
    a := new Cell[|rows|, n]((k, c) requires 0 <= k < |rows| && 0 <= c < n => Some(rows[k][c]));
  }

  /** A table as a fresh array. */
  method RealArray(rows: seq<Vector>, n: nat) returns (a: array2<real>)
    requires HasWidth(rows, n)
    ensures fresh(a) && a.Length0 == |rows| && a.Length1 == n
    ensures forall k, c :: 0 <= k < |rows| && 0 <= c < n ==> a[k, c] == rows[k][c]
  {
    a := new real[|rows|, n]((k, c) requires 0 <= k < |rows| && 0 <= c < n => rows[k][c]);
  }

  /** The entries of an array as present cells of a fresh array. */
  method ToCells(a: array2<real>) returns (b: array2<Cell>)
    ensures fresh(b) && b.Length0 == a.Length0 && b.Length1 == a.Length1
    ensures forall k, c :: 0 <= k < a.Length0 && 0 <= c < a.Length1 ==> b[k, c] == Some(a[k, c])
  {
    b := new Cell[a.Length0, a.Length1]((k, c) reads a requires 0 <= k < a.Length0 && 0 <= c < a.Length1 => Some(a[k, c]));
  }

  /** a[keys < cutoff] = NaN: every cell of the rows whose key is before the cutoff. */
  method MaskRowsBefore(a: array2<Cell>, keys: seq<real>, cutoff: real)
    requires a.Length0 == |keys|
    modifies a
    ensures forall k, c :: 0 <= k < a.Length0 && 0 <= c < a.Length1 ==>
              a[k, c] == if keys[k] < cutoff then None else old(a[k, c])
  {
    forall k, c | 0 <= k < a.Length0 && 0 <= c < a.Length1 && keys[k] < cutoff {
      a[k, c] := None;
    }
  }

  /** a -= a[row]: every row minus that row as it was before the update
      (NumPy buffers the overlapping operand). */
  method SubtractRowInPlace(a: array2<real>, row: nat)
    requires row < a.Length0
    modifies a
    ensures forall k, c :: 0 <= k < a.Length0 && 0 <= c < a.Length1 ==> a[k, c] == old(a[k, c]) - old(a[row, c])
  {
    forall k, c | 0 <= k < a.Length0 && 0 <= c < a.Length1 {
      a[k, c] := a[k, c] - a[row, c];
    }
  }

  /** a[from:from + count] as a table. */
  method ReadRows(a: array2<Cell>, from: nat, count: nat) returns (rows: seq<seq<Cell>>)
    requires from + count <= a.Length0
    ensures |rows| == count && HasWidth(rows, a.Length1)
    ensures forall k, c :: 0 <= k < count && 0 <= c < a.Length1 ==> rows[k][c] == a[from + k, c]
  {
    rows := [];
    var k := 0;
    while k < count
      invariant 0 <= k <= count && |rows| == k && HasWidth(rows, a.Length1)
      invariant forall j, c :: 0 <= j < k && 0 <= c < a.Length1 ==> rows[j][c] == a[from + j, c]
    {
      var row := seq(a.Length1, c requires 0 <= c < a.Length1 reads a => a[from + k, c]);
      rows := rows + [row];
      k := k + 1;
    }
  }

  /** The occupancy cut back to the queries, with the mask written into the
      occupancy array first under only_real_results. */
  method QueriesInPlace(occ: seq<Vector>, grid: Vector, before: nat, count: nat, cutoff: real, onlyReal: bool, n: nat)
    returns (r: Result<seq<seq<Cell>>>)
    requires before + count <= |grid| <= |occ| && HasWidth(occ, n)
    ensures r == AtQueries(occ, grid, before, count, cutoff, onlyReal, n)
  {
    var cells := CellArray(occ, n);
    if onlyReal {
      if cells.Length0 != |grid| {
        return Fail;
      }
      MaskRowsBefore(cells, grid, cutoff);
    }
    var rows := ReadRows(cells, before, count);
    SameTable(rows, AtQueries(occ, grid, before, count, cutoff, onlyReal, n).value, n);
    r := Ok(rows);
  }

  /** deaths, shifted in place by the row nearest the start and then masked
      in place. */
  method DeathsInPlace(integral: seq<Vector>, time: seq<real>, start: real, onlyReal: bool, n: nat)
    returns (d: seq<seq<Cell>>)
    requires |integral| == |time| >= 1 && HasWidth(integral, n)
    ensures d == Deaths(integral, time, start, onlyReal, n)
  {
    var a := RealArray(integral, n);
    if onlyReal {
      SubtractRowInPlace(a, ArgMinDistance(time, start));
    }
    var cells := ToCells(a);
    if onlyReal {
      MaskRowsBefore(cells, time, start);
    }
    d := ReadRows(cells, 0, |time|);
    forall k, c | 0 <= k < |time| && 0 <= c < n
      ensures d[k][c] == Deaths(integral, time, start, onlyReal, n)[k][c]
    {
      assert d[k][c] == cells[k, c];
    }
    SameTable(d, Deaths(integral, time, start, onlyReal, n), n);
  }

  /** s with s[offset:offset + |v|] replaced by v. */
  ghost function Splice(s: Vector, offset: nat, v: Vector): (r: Vector)
    requires offset + |v| <= |s|
    ensures |r| == |s|
  {
    s[..offset] + v + s[offset + |v|..]
  }

  /** Splicing three consecutive blocks of length n into the head of s. */
  lemma SpliceThree(s: Vector, n: nat, x: Vector, y: Vector, z: Vector)
    requires |s| >= 3 * n && |x| == |y| == |z| == n
    ensures Splice(Splice(Splice(s, 0, x), n, y), 2 * n, z) == x + y + z + s[3 * n..]
  {
    var r1 := Splice(s, 0, x);
    var r2 := Splice(r1, n, y);
    assert r1[..n] == x && r1[2 * n..] == s[2 * n..];
    assert r2 == x + y + s[2 * n..];
    assert r2[..2 * n] == x + y && r2[3 * n..] == s[3 * n..];
  }

  /** a[offset:offset + |v|] = v: a write through a view. */
  method WriteBlock(a: array<real>, offset: nat, v: Vector)
    requires offset + |v| <= a.Length
    modifies a
    ensures a[..] == Splice(old(a[..]), offset, v)
  {
    forall k | 0 <= k < |v| {
      a[offset + k] := v[k];
    }
    forall j | 0 <= j < a.Length
      ensures a[j] == Splice(old(a[..]), offset, v)[j]
    {
      if offset <= j < offset + |v| {
        assert a[offset + (j - offset)] == v[j - offset];
      }
    }
  }

  /** res = np.zeros(4N) with the four blocks written through their views:
      the unforced flows at Y under the force of infection _inf_matrix @ I. */
  method FlowsInto(p: Parameters, y: Vector, force: Vector) returns (res: array<real>)
    requires ValidParameters(p) && |force| == |p.compartments| && |y| == 4 * |p.compartments|
    ensures fresh(res)
    ensures var d := FlowsUnder(p, force, y);
            res[..] == d.0 + d.1 + d.2 + d.3
  {
    var n := |p.compartments|;
    var d := FlowsUnder(p, force, y);
    res := new real[4 * n](_ => 0.0);
    ghost var z := res[..];
    WriteBlock(res, 0, d.0);
    WriteBlock(res, n, d.1);
    WriteBlock(res, 2 * n, d.2);
    ghost var r3 := res[..];
    WriteBlock(res, 3 * n, d.3);
    SpliceThree(z, n, d.0, d.1, d.2);
    assert r3[..3 * n] == d.0 + d.1 + d.2 && r3[4 * n..] == [];
  }

  /** dS_dt += DS, dE_dt += DE, dI_dt += DI on the views of res, each import
      of length N or broadcast from length one. */
  method AddImports(res: array<real>, im: Imports, n: nat)
    requires res.Length == 4 * n && ImportsFit(im, n)
    modifies res
    ensures forall j :: 0 <= j < n ==> res[j] == old(res[j]) + ImportAt(im.ds, n, j)
    ensures forall j :: n <= j < 2 * n ==> res[j] == old(res[j]) + ImportAt(im.de, n, j - n)
    ensures forall j :: 2 * n <= j < 3 * n ==> res[j] == old(res[j]) + ImportAt(im.di, n, j - 2 * n)
    ensures forall j :: 3 * n <= j < 4 * n ==> res[j] == old(res[j])
  {
    forall k | 0 <= k < n {
      res[k] := res[k] + ImportAt(im.ds, n, k);
    }
    forall k | 0 <= k < n {
      res[n + k] := res[n + k] + ImportAt(im.de, n, k);
    }
    forall k | 0 <= k < n {
      res[2 * n + k] := res[2 * n + k] + ImportAt(im.di, n, k);
    }
  }

  /** The flows under m are the flows under the force of infection m @ I. */
  lemma FlowsOfForce(p: Parameters, m: Matrix, y: Vector, force: Vector)
    requires ValidParameters(p) && IsSquare(m, |p.compartments|) && |y| == 4 * |p.compartments|
    requires force == MatVec(m, Block(y, 2, |p.compartments|))
    ensures Flows(p, m, y) == FlowsUnder(p, force, y)
  {
  }

  /** force = m @ I from the buffer, then the four blocks of res: the flows
      under m. */
  method FlowsOf(p: Parameters, a: array2<real>, y: Vector, ghost m: Matrix) returns (res: array<real>)
    requires ValidParameters(p) && |y| == 4 * |p.compartments|
    requires a.Length0 == a.Length1 == |p.compartments| && Contents(a) == m
    ensures fresh(res)
    ensures var d := Flows(p, m, y);
            res[..] == d.0 + d.1 + d.2 + d.3
  {
    var n := |p.compartments|;
    var force := MatVecOf(a, Block(y, 2, n));
    res := FlowsInto(p, y, force);
    FlowsOfForce(p, m, y, force);
  }

  /** A square matrix copied into a square array entry by entry. */
  method CopyInto(a: array2<real>, m: Matrix, n: nat)
    requires a.Length0 == a.Length1 == n && IsSquare(m, n)
    modifies a
    ensures Contents(a) == m
  {
    forall i, j | 0 <= i < n && 0 <= j < n {
      a[i, j] := m[i][j];
    }
    SameTable(Contents(a), m, n);
  }

  /** The imports added to the first three blocks of the flows under m, in
      place: res then holds the derivative with imports. */
  method ImportInto(p: Parameters, ghost m: Matrix, y: Vector, res: array<real>, im: Imports)
    requires ValidParameters(p) && IsSquare(m, |p.compartments|) && |y| == 4 * |p.compartments|
    requires ImportsFit(im, |p.compartments|)
    requires var d := Flows(p, m, y);
             res[..] == d.0 + d.1 + d.2 + d.3
    modifies res
    ensures Derivative(p, m, y, Some(im)) == Ok(res[..])
  {
    ghost var flows := res[..];
    AddImports(res, im, |p.compartments|);
    DerivativeImported(p, m, y, im, flows, res[..]);
  }

  /** Without imports the derivative is the four blocks of the flows. */
  lemma DerivativeUnimported(p: Parameters, m: Matrix, y: Vector)
    requires ValidParameters(p) && IsSquare(m, |p.compartments|) && |y| == 4 * |p.compartments|
    ensures var d := Flows(p, m, y);
            Derivative(p, m, y, None) == Ok(d.0 + d.1 + d.2 + d.3)
  {
  }

  /** The unforced flows with the imports added to the first three blocks
      are the derivative with imports. */
  lemma DerivativeImported(p: Parameters, m: Matrix, y: Vector, im: Imports, flows: Vector, r: Vector)
    requires ValidParameters(p) && IsSquare(m, |p.compartments|) && |y| == 4 * |p.compartments|
    requires ImportsFit(im, |p.compartments|)
    requires var d := Flows(p, m, y);
             flows == d.0 + d.1 + d.2 + d.3
    requires |r| == 4 * |p.compartments|
    requires var n := |p.compartments|;
             && (forall j :: 0 <= j < n ==> r[j] == flows[j] + ImportAt(im.ds, n, j))
             && (forall j :: n <= j < 2 * n ==> r[j] == flows[j] + ImportAt(im.de, n, j - n))
             && (forall j :: 2 * n <= j < 3 * n ==> r[j] == flows[j] + ImportAt(im.di, n, j - 2 * n))
             && (forall j :: 3 * n <= j < 4 * n ==> r[j] == flows[j])
    ensures Derivative(p, m, y, Some(im)) == Ok(r)
  {
    var n, d := |p.compartments|, Flows(p, m, y);
    var dS := AddInPlace(d.0, im.ds).value;
    var dE := AddInPlace(d.1, im.de).value;
    var dI := AddInPlace(d.2, im.di).value;
    forall j | 0 <= j < 4 * n
      ensures r[j] == (dS + dE + dI + d.3)[j]
    {
      if j < n {
        assert flows[j] == d.0[j];
      } else if j < 2 * n {
        assert flows[j] == d.1[j - n];
      } else if j < 3 * n {
        assert flows[j] == d.2[j - 2 * n];
      } else {
        assert flows[j] == d.3[j - 3 * n];
      }
    }
    assert r == dS + dE + dI + d.3;
  }

  class Seir {
    const params: Parameters
    /** restrictions_function: the infectivity modifier at a time. */
    const restrictions: Option<real -> Modifier>
    /** imported_cases_function: the (DS, DE, DI) imports at a time. */
    const imports: Option<real -> Imports>
    /** _inf_matrix: the infectivity matrix of the latest call. */
    const scratch: array2<real>
    /** Y0, None until set_initial_state. */
    var y0: Option<Vector>
    /** The dense solution of the solver, None until simulate. */
    var solution: Option<real -> Vector>
    /** The start time of the last simulation. */
    var t0: real

    ghost predicate Valid()
      reads this, scratch
    {
      var n := |params.compartments|;
      ValidParameters(params) &&
      scratch.Length0 == n && scratch.Length1 == n &&
      (restrictions.None? ==> Contents(scratch) == params.infectivity) &&
      (solution.Some? ==> y0.Some? && DenseFits(solution.value, n))
    }

    /** __init__ from checked parameters: the buffer starts as a copy of the
        infectivity matrix, with no initial state and no solution. */
    constructor (p: Parameters, restrictions: Option<real -> Modifier>, imports: Option<real -> Imports>)
      requires ValidParameters(p)
      ensures Valid() && fresh(scratch)
      ensures params == p && this.restrictions == restrictions && this.imports == imports
      ensures Contents(scratch) == p.infectivity
      ensures y0.None? && solution.None?
    {
      var n := |p.compartments|;
      var a := new real[n, n]((i, j) requires 0 <= i < n && 0 <= j < n => p.infectivity[i][j]);
      params := p;
      this.restrictions := restrictions;
      this.imports := imports;
      scratch := a;
      y0 := None;
      solution := None;
      t0 := 0.0;
      new;
      SameTable(Contents(scratch), p.infectivity, n);
    }

    /** __init__ from raw arguments: fails exactly when the arguments are
        rejected. */
    static method Create(a: Arguments, restrictions: Option<real -> Modifier>, imports: Option<real -> Imports>)
      returns (r: Result<Seir>)
      ensures r.Ok? <==> Configure(a).Ok?
      ensures r.Ok? ==> fresh(r.value) && fresh(r.value.scratch) && r.value.Valid()
      ensures r.Ok? ==> r.value.params == Configure(a).value && r.value.y0.None? && r.value.solution.None?
    {
      var p :- Configure(a);
      var s := new Seir(p, restrictions, imports);
      r := Ok(s);
    }

    /** The imports at time t, if there is an imported_cases_function. */
    function ImportsAt(t: real): (r: Option<Imports>)
      ensures r.Some? <==> imports.Some?
    {
      match imports
      case None => None
      case Some(f) => Some(f(t))
    }

    /** dY/dt at (t, Y), with the infectivity restricted at t. */
    function RightHandSide(t: real, y: Vector): (r: Result<Vector>)
      requires ValidParameters(params) && |y| == 4 * |params.compartments|
      ensures r.Ok? ==> |r.value| == 4 * |params.compartments|
      ensures r.Ok? <==> EffectiveInfectivity(params, restrictions, t).Ok? &&
                         (imports.None? || ImportsFit(ImportsAt(t).value, |params.compartments|))
    {
      var m :- EffectiveInfectivity(params, restrictions, t);
      Derivative(params, m, y, ImportsAt(t))
    }

    /** self._inf_matrix[:] = restriction * infectivity_matrix. */
    method Restrict(f: Modifier)
      requires Valid() && restrictions.Some? && Fits(f, |params.compartments|)
      modifies scratch
      ensures Valid()
      ensures Contents(scratch) == Hadamard(f, params.infectivity, |params.compartments|)
    {
      CopyInto(scratch, Hadamard(f, params.infectivity, |params.compartments|), |params.compartments|);
    }

    /** The infectivity of a call at t, left in the buffer: restrictions(t)
        times the infectivity matrix when there are restrictions (the buffer
        is untouched when the restriction is neither a scalar nor N x N), the buffer as
        it is otherwise. */
    method Infectivity(t: real) returns (r: Result<Matrix>)
      requires Valid()
      modifies scratch
      ensures Valid()
      ensures r == EffectiveInfectivity(params, restrictions, t)
      ensures r.Ok? ==> Contents(scratch) == r.value
      ensures restrictions.None? || r.Fail? ==> unchanged(scratch)
    {
      var n := |params.compartments|;
      if restrictions.Some? {
        var f := restrictions.value(t);
        if !Fits(f, n) {
          return Fail;
        }
        Restrict(f);
      }
      r := Ok(EffectiveInfectivity(params, restrictions, t).value);
    }

    /** __call__: overwrites the buffer with the restricted infectivity when
        there are restrictions, then writes the four blocks of the result and
        adds the imports. The result depends on t and Y only, never on an
        earlier call. */
    method Call(t: real, y: Vector) returns (r: Result<Vector>)
      requires Valid() && |y| == 4 * |params.compartments|
      modifies scratch
      ensures Valid()
      ensures r == RightHandSide(t, y)
      ensures restrictions.Some? && EffectiveInfectivity(params, restrictions, t).Ok? ==>
                Contents(scratch) == EffectiveInfectivity(params, restrictions, t).value
      ensures restrictions.None? || EffectiveInfectivity(params, restrictions, t).Fail? ==> unchanged(scratch)
    {
      var m :- Infectivity(t);
      r := Derive(t, y, m);
    }

    /** The rest of __call__: force = _inf_matrix @ I, the four blocks of
        res, and the imports at t added to the first three. */
    method Derive(t: real, y: Vector, ghost m: Matrix) returns (r: Result<Vector>)
      requires Valid() && |y| == 4 * |params.compartments|
      requires IsSquare(m, |params.compartments|) && Contents(scratch) == m
      ensures r == Derivative(params, m, y, ImportsAt(t))
    {
      var n := |params.compartments|;
      var res := FlowsOf(params, scratch, y, m);
      var im := ImportsAt(t);
      match im
      case None =>
        DerivativeUnimported(params, m, y);
        r := Ok(res[..]);
      case Some(x) =>
        if !ImportsFit(x, n) {
          return Fail;
        }
        ImportInto(params, m, y, res, x);
        r := Ok(res[..]);
    }

    /** set_initial_state: Y0 becomes S, E, I and R = 0 for the given exposed
        and infected people (or fractions of the population); on failure Y0 is
        left as it was. */
    method SetInitialState(exposed: Param, infected: Param, probabilities: bool) returns (ok: bool)
      requires Valid()
      modifies this
      ensures Valid()
      ensures ok <==> InitialState(params, exposed, infected, probabilities).Ok?
      ensures ok ==> y0 == Some(InitialState(params, exposed, infected, probabilities).value)
      ensures !ok ==> y0 == old(y0)
      ensures solution == old(solution) && t0 == old(t0)
    {
      var state := InitialState(params, exposed, infected, probabilities);
      if state.Fail? {
        return false;
      }
      y0 := Some(state.value);
      ok := true;
    }

    /** simulate: needs Y0. The solver evaluates __call__ first at (t0, Y0)
        and then at the points `later` it picks while integrating, and any
        failing evaluation makes the whole simulation fail; the dense solution
        it returns is the parameter `dense`. Stores t0 and the solution and
        keeps Y0. */
    method Simulate(start: real, dense: real -> Vector, later: seq<(real, Vector)>) returns (ok: bool)
      requires Valid() && DenseFits(dense, |params.compartments|)
      requires forall i :: 0 <= i < |later| ==> |later[i].1| == 4 * |params.compartments|
      modifies this, scratch
      ensures Valid()
      ensures ok <==> old(y0).Some? && |old(y0).value| == 4 * |params.compartments| &&
                      RightHandSide(start, old(y0).value).Ok? &&
                      forall i :: 0 <= i < |later| ==> RightHandSide(later[i].0, later[i].1).Ok?
      ensures ok ==> solution == Some(dense) && t0 == start
      ensures !ok ==> solution == old(solution) && t0 == old(t0)
      ensures y0 == old(y0)
    {
      if y0.None? || |y0.value| != 4 * |params.compartments| {
        return false;
      }
      var first := Call(start, y0.value);
      if first.Fail? {
        return false;
      }
      var k := 0;
      while k < |later|
        invariant 0 <= k <= |later| && Valid()
        invariant forall i :: 0 <= i < k ==> RightHandSide(later[i].0, later[i].1).Ok?
        invariant y0 == old(y0) && solution == old(solution) && t0 == old(t0)
      {
        var r := Call(later[k].0, later[k].1);
        if r.Fail? {
          return false;
        }
        k := k + 1;
      }
      t0 := start;
      solution := Some(dense);
      ok := true;
    }

    /** evaluate_solution: needs a solution; the rows before t0 use the Y0
        current at the time of the call. */
    method Evaluate(time: seq<real>, onlyReal: bool) returns (r: Result<Results>)
      requires Valid()
      ensures solution.None? ==> r.Fail?
      ensures solution.Some? ==> r == SeirEvaluate.Evaluate(params, y0.value, solution.value, t0, time, onlyReal)
    {
      if solution.None? {
        return Fail;
      }
      r := SeirEvaluate.Evaluate(params, y0.value, solution.value, t0, time, onlyReal);
    }
  }
}
