/** The SEIR engine as values: its constructor checks, the infectivity matrix,
    the right-hand side dY/dt, the initial state and the solution extended to
    be flat before t0. The state vector of N compartments is the four blocks
    [S, E, I, R], each N long. */
module SeirModel {
  import opened Wrappers
  import opened Numeric

  // ---------------------------------------------------------------------------
  // Arguments and their sizes

  /** A per-compartment argument: one number for every compartment, or a list. */
  datatype Param = Single(x: real) | PerCompartment(xs: seq<real>)

  /** _fix_size: a number becomes a constant vector, a list must already be N long. */
  function FixSize(p: Param, n: nat): (r: Result<Vector>)
    ensures r.Ok? <==> p.Single? || |p.xs| == n
    ensures r.Ok? ==> |r.value| == n
    ensures r.Ok? ==> forall i :: 0 <= i < n ==> r.value[i] == (if p.Single? then p.x else p.xs[i])
  {
    match p
    case Single(x) => Ok(Const(n, x))
    case PerCompartment(xs) => if |xs| == n then Ok(xs) else Fail
  }

  /** A fixed-size vector passes through _fix_size unchanged. */
  lemma FixSizeIdempotent(p: Param, n: nat)
    requires FixSize(p, n).Ok?
    ensures FixSize(PerCompartment(FixSize(p, n).value), n) == FixSize(p, n)
  {
  }

  /** The keyword arguments of the constructor. */
  datatype Arguments = Arguments(
    incubationPeriod: Param,
    infectiousPeriod: Param,
    initialR0: real,
    hospitalizationProbability: Param,
    hospitalizationDuration: real,
    hospitalizationLag: real,
    icuProbability: Param,
    icuDuration: real,
    icuLag: real,
    deathProbability: Param,
    deathLag: real,
    population: Param,
    compartments: Option<seq<string>>,
    contactsMatrix: Option<Matrix>)

  /** What the constructor stores: every per-compartment argument N long and
      the infectivity matrix computed from the contacts. */
  datatype Parameters = Parameters(
    compartments: seq<string>,
    incubationPeriod: Vector,
    infectiousPeriod: Vector,
    initialR0: real,
    hospitalizationProbability: Vector,
    hospitalizationDuration: real,
    hospitalizationLag: real,
    icuProbability: Vector,
    icuDuration: real,
    icuLag: real,
    deathProbability: Vector,
    deathLag: real,
    population: Vector,
    infectivity: Matrix)

  predicate NonZero(v: Vector) {
    forall i :: 0 <= i < |v| ==> v[i] != 0.0
  }

  predicate ValidParameters(p: Parameters) {
    var n := |p.compartments|;
    n >= 1 &&
    |p.incubationPeriod| == n && NonZero(p.incubationPeriod) &&
    |p.infectiousPeriod| == n && NonZero(p.infectiousPeriod) &&
    |p.hospitalizationProbability| == n && |p.icuProbability| == n &&
    |p.deathProbability| == n &&
    |p.population| == n && NonZero(p.population) &&
    IsSquare(p.infectivity, n)
  }

  // ---------------------------------------------------------------------------
  // Infectivity matrix

  /** sum(P @ C): the contacts of the whole population. */
  function ContactWeight(population: Vector, contacts: Matrix): real
    requires IsSquare(contacts, |population|)
  {
    Sum(VecMat(population, contacts, |population|))
  }

  /** 1 / infectious_period * R0 * sum(P) / sum(P @ C), per compartment. */
  function Normalization(infectious: Vector, r0: real, population: Vector, contacts: Matrix): (norm: Vector)
    requires |infectious| == |population| && NonZero(infectious)
    requires IsSquare(contacts, |population|) && ContactWeight(population, contacts) != 0.0
    ensures |norm| == |population|
    ensures forall j :: 0 <= j < |norm| ==>
              norm[j] * infectious[j] * ContactWeight(population, contacts) == r0 * Sum(population)
  {
    var w := ContactWeight(population, contacts);
    seq(|population|, j requires 0 <= j < |population| => NormalizationEntry(infectious[j], r0, Sum(population), w))
  }

  /** 1 / period * R0 * total / weight. */
  function NormalizationEntry(period: real, r0: real, total: real, weight: real): (e: real)
    requires period != 0.0 && weight != 0.0
    ensures e * period * weight == r0 * total
  {
    1.0 / period * r0 * total / weight
  }

  /** The symmetrised contacts with column j scaled by the normalisation of j
      (the normalisation vector broadcasts along the last axis). */
  function Infectivity(infectious: Vector, r0: real, population: Vector, contacts: Matrix): (m: Matrix)
    requires |infectious| == |population| && NonZero(infectious)
    requires IsSquare(contacts, |population|) && ContactWeight(population, contacts) != 0.0
    ensures IsSquare(m, |population|)
    ensures forall i, j :: 0 <= i < |population| && 0 <= j < |population| ==>
              m[i][j] == Normalization(infectious, r0, population, contacts)[j] * (0.5 * (contacts[i][j] + contacts[j][i]))
  {
    var n := |population|;
    ScaleColumns(Normalization(infectious, r0, population, contacts), Symmetrized(contacts, n), n)
  }

  /** m with column j scaled by scale[j]. */
  function ScaleColumns(scale: Vector, m: Matrix, n: nat): (r: Matrix)
    requires |scale| == n && IsSquare(m, n)
    ensures IsSquare(r, n)
    ensures forall i, j :: 0 <= i < n && 0 <= j < n ==> r[i][j] == scale[j] * m[i][j]
  {
    seq(n, i requires 0 <= i < n => seq(n, j requires 0 <= j < n => scale[j] * m[i][j]))
  }

  /** 0.5 * (C + C.T): a symmetric matrix, each entry the mean of the two
      mirrored entries of C. */
  function Symmetrized(m: Matrix, n: nat): (r: Matrix)
    requires IsSquare(m, n)
    ensures IsSquare(r, n) && Symmetric(r, n)
    ensures forall i, j :: 0 <= i < n && 0 <= j < n ==> r[i][j] == 0.5 * (m[i][j] + m[j][i])
  {
    seq(n, i requires 0 <= i < n => seq(n, j requires 0 <= j < n => 0.5 * (m[i][j] + m[j][i])))
  }

  /** Symmetrising a symmetric matrix leaves it as it is. */
  lemma SymmetrizedFixed(m: Matrix, n: nat)
    requires IsSquare(m, n) && Symmetric(m, n)
    ensures Symmetrized(m, n) == m
  {
    var r := Symmetrized(m, n);
    forall i | 0 <= i < n
      ensures r[i] == m[i]
    {
      forall j | 0 <= j < n
        ensures r[i][j] == m[i][j]
      {
        assert m[j][i] == m[i][j];
      }
    }
  }

  predicate Uniform(v: Vector) {
    forall i, j :: 0 <= i < |v| && 0 <= j < |v| ==> v[i] == v[j]
  }

  predicate Symmetric(m: Matrix, n: nat)
    requires IsSquare(m, n)
  {
    forall i, j :: 0 <= i < n && 0 <= j < n ==> m[i][j] == m[j][i]
  }

  /** With one infectious period for all compartments the infectivity matrix is symmetric. */
  lemma InfectivitySymmetric(infectious: Vector, r0: real, population: Vector, contacts: Matrix)
    requires |infectious| == |population| && NonZero(infectious)
    requires IsSquare(contacts, |population|) && ContactWeight(population, contacts) != 0.0
    requires Uniform(infectious)
    ensures Symmetric(Infectivity(infectious, r0, population, contacts), |population|)
  {
    var n := |population|;
    var norm := Normalization(infectious, r0, population, contacts);
    var m := Infectivity(infectious, r0, population, contacts);
    forall i, j | 0 <= i < n && 0 <= j < n
      ensures m[i][j] == m[j][i]
    {
      assert norm[i] == norm[j] by {
        NormalizationUniform(infectious, r0, population, contacts, i, j);
      }
    }
  }

  lemma NormalizationUniform(infectious: Vector, r0: real, population: Vector, contacts: Matrix, i: nat, j: nat)
    requires |infectious| == |population| && NonZero(infectious)
    requires IsSquare(contacts, |population|) && ContactWeight(population, contacts) != 0.0
    requires i < |population| && j < |population| && infectious[i] == infectious[j]
    ensures Normalization(infectious, r0, population, contacts)[i] == Normalization(infectious, r0, population, contacts)[j]
  {
    var w := ContactWeight(population, contacts);
    var norm := Normalization(infectious, r0, population, contacts);
    assert norm[i] == NormalizationEntry(infectious[i], r0, Sum(population), w);
    assert norm[j] == NormalizationEntry(infectious[j], r0, Sum(population), w);
  }

  /** One compartment with the default contacts: the infectivity is R0 / infectious_period. */
  lemma InfectivityOneCompartment(period: real, r0: real, size: real)
    requires period != 0.0 && size != 0.0
    ensures ContactWeight([size], Ones(1)) == size
    ensures Infectivity([period], r0, [size], Ones(1)) == [[r0 / period]]
  {
    var contacts := Ones(1);
    assert Column(contacts, 0) == [1.0];
    assert Dot([size], [1.0]) == size by {
      assert [size][..0] == [] && [1.0][..0] == [];
    }
    assert VecMat([size], contacts, 1) == [size];
    assert Sum([size]) == size by {
      assert [size][..0] == [];
    }
    var norm := Normalization([period], r0, [size], contacts);
    assert norm[0] == r0 / period by {
      assert norm[0] * period * size == r0 * size;
    }
    var m := Infectivity([period], r0, [size], contacts);
    assert m[0][0] == r0 / period;
    assert m[0] == [r0 / period];
  }

  // ---------------------------------------------------------------------------
  // Constructor

  /** Whether the normalisation is a finite number: the model refuses the
      divisions by zero that would make it infinite or NaN. */
  predicate Finite(infectious: Vector, population: Vector, contacts: Matrix)
    requires IsSquare(contacts, |population|)
  {
    NonZero(infectious) && ContactWeight(population, contacts) != 0.0
  }

  /** The compartments given, or the single compartment "All". */
  function CompartmentsOf(a: Arguments): seq<string> {
    if a.compartments.Some? then a.compartments.value else ["All"]
  }

  /** __init__: compartments default to ["All"], the per-compartment arguments
      are fixed in size, a scalar population requires a single compartment,
      the contacts default to all ones and must be N x N. */
  function Configure(a: Arguments): (r: Result<Parameters>)
    ensures r.Ok? ==> ValidParameters(r.value)
    ensures r.Ok? ==> r.value.compartments == CompartmentsOf(a)
    ensures r.Ok? && a.population.Single? ==> |CompartmentsOf(a)| == 1
    ensures a.contactsMatrix.Some? && !IsSquare(a.contactsMatrix.value, |CompartmentsOf(a)|) ==> r.Fail?
  {
    var compartments := CompartmentsOf(a);
    var n := |compartments|;
    var incubation :- FixSize(a.incubationPeriod, n);
    var infectious :- FixSize(a.infectiousPeriod, n);
    var hospitalization :- FixSize(a.hospitalizationProbability, n);
    var icu :- FixSize(a.icuProbability, n);
    var death :- FixSize(a.deathProbability, n);
    var _ :- if a.population.Single? && n != 1 then Fail else Ok(());
    var population :- FixSize(a.population, n);
    var contacts := if a.contactsMatrix.Some? then a.contactsMatrix.value else Ones(n);
    var _ :- if IsSquare(contacts, n) then Ok(()) else Fail;
    var _ :- if Finite(infectious, population, contacts) && NonZero(incubation) && NonZero(population) && n >= 1
             then Ok(()) else Fail;
    Ok(Parameters(compartments, incubation, infectious, a.initialR0,
                  hospitalization, a.hospitalizationDuration, a.hospitalizationLag,
                  icu, a.icuDuration, a.icuLag, death, a.deathLag, population,
                  Infectivity(infectious, a.initialR0, population, contacts)))
  }

  /** A successful construction keeps each fixed-size argument and the
      infectivity matrix of the given (or all-ones) contacts. */
  lemma ConfigureStores(a: Arguments)
    requires Configure(a).Ok?
    ensures var p := Configure(a).value;
            var n := |p.compartments|;
            FixSize(a.incubationPeriod, n) == Ok(p.incubationPeriod) &&
            FixSize(a.infectiousPeriod, n) == Ok(p.infectiousPeriod) &&
            FixSize(a.population, n) == Ok(p.population) &&
            FixSize(a.hospitalizationProbability, n) == Ok(p.hospitalizationProbability) &&
            FixSize(a.icuProbability, n) == Ok(p.icuProbability) &&
            FixSize(a.deathProbability, n) == Ok(p.deathProbability)
    ensures var p := Configure(a).value;
            var n := |p.compartments|;
            var contacts := if a.contactsMatrix.Some? then a.contactsMatrix.value else Ones(n);
            IsSquare(contacts, n) && Finite(p.infectiousPeriod, p.population, contacts) &&
            p.infectivity == Infectivity(p.infectiousPeriod, p.initialR0, p.population, contacts)
  {
  }

  // ---------------------------------------------------------------------------
  // Right-hand side

  /** Block b of a state vector: S, E, I, R for b = 0, 1, 2, 3. */
  function Block(y: Vector, b: nat, n: nat): (v: Vector)
    requires (b + 1) * n <= |y|
    ensures |v| == n && forall k :: 0 <= k < n ==> v[k] == y[b * n + k]
  {
    y[b * n..(b + 1) * n]
  }

  /** The imported cases at one time: additions to dS, dE and dI. */
  datatype Imports = Imports(ds: Vector, de: Vector, di: Vector)

  /** v += d in place: d must be as long as v or of length one. */
  function AddInPlace(v: Vector, d: Vector): (r: Result<Vector>)
    ensures r.Ok? <==> |d| == |v| || |d| == 1
    ensures r.Ok? ==> |r.value| == |v|
    ensures r.Ok? ==> forall k :: 0 <= k < |v| ==> r.value[k] == v[k] + (if |d| == |v| then d[k] else d[0])
  {
    if |d| == |v| then Ok(seq(|v|, k requires 0 <= k < |v| => v[k] + d[k]))
    else if |d| == 1 then Ok(seq(|v|, k requires 0 <= k < |v| => v[k] + d[0]))
    else Fail
  }

  /** The imported amount added to entry k. */
  function ImportAt(d: Vector, n: nat, k: nat): real
    requires k < n && (|d| == n || |d| == 1)
  {
    if |d| == n then d[k] else d[0]
  }

  /** The unforced rates of change: new infections leave S for E, E becomes
      I at 1 / incubation_period, I becomes R at 1 / infectious_period. */
  function Flows(p: Parameters, m: Matrix, y: Vector): (d: (Vector, Vector, Vector, Vector))
    requires ValidParameters(p) && IsSquare(m, |p.compartments|) && |y| == 4 * |p.compartments|
    ensures var n := |p.compartments|;
            |d.0| == n && |d.1| == n && |d.2| == n && |d.3| == n
  {
    FlowsUnder(p, MatVec(m, Block(y, 2, |p.compartments|)), y)
  }

  /** The flows given the force of infection m @ I. */
  function FlowsUnder(p: Parameters, force: Vector, y: Vector): (d: (Vector, Vector, Vector, Vector))
    requires ValidParameters(p) && |force| == |p.compartments| && |y| == 4 * |p.compartments|
    ensures var n := |p.compartments|;
            |d.0| == n && |d.1| == n && |d.2| == n && |d.3| == n
  {
    var n := |p.compartments|;
    var s, e, i := Block(y, 0, n), Block(y, 1, n), Block(y, 2, n);
    var dS := seq(n, k requires 0 <= k < n => -(s[k] / p.population[k]) * force[k]);
    var dE := seq(n, k requires 0 <= k < n => -dS[k] - e[k] / p.incubationPeriod[k]);
    var dI := seq(n, k requires 0 <= k < n => e[k] / p.incubationPeriod[k] - i[k] / p.infectiousPeriod[k]);
    var dR := seq(n, k requires 0 <= k < n => i[k] / p.infectiousPeriod[k]);
    (dS, dE, dI, dR)
  }

  /** __call__: dY/dt under infectivity m, plus the imported cases if any. */
  function Derivative(p: Parameters, m: Matrix, y: Vector, imports: Option<Imports>): (r: Result<Vector>)
    requires ValidParameters(p) && IsSquare(m, |p.compartments|) && |y| == 4 * |p.compartments|
    ensures r.Ok? ==> |r.value| == 4 * |p.compartments|
    ensures r.Ok? <==> imports.None? || ImportsFit(imports.value, |p.compartments|)
  {
    var d := Flows(p, m, y);
    match imports
    case None => Ok(d.0 + d.1 + d.2 + d.3)
    case Some(im) =>
      var dS :- AddInPlace(d.0, im.ds);
      var dE :- AddInPlace(d.1, im.de);
      var dI :- AddInPlace(d.2, im.di);
      Ok(dS + dE + dI + d.3)
  }

  predicate ImportsFit(im: Imports, n: nat) {
    (|im.ds| == n || |im.ds| == 1) && (|im.de| == n || |im.de| == 1) && (|im.di| == n || |im.di| == 1)
  }

  /** The total imported into compartment k. */
  function ImportedTotal(imports: Option<Imports>, n: nat, k: nat): real
    requires k < n && (imports.Some? ==> ImportsFit(imports.value, n))
  {
    match imports
    case None => 0.0
    case Some(im) => ImportAt(im.ds, n, k) + ImportAt(im.de, n, k) + ImportAt(im.di, n, k)
  }

  /** People only move between the four states: in every compartment
      dS + dE + dI + dR is 0, or the cases imported into it. */
  lemma Conservation(p: Parameters, m: Matrix, y: Vector, imports: Option<Imports>, k: nat)
    requires ValidParameters(p) && IsSquare(m, |p.compartments|) && |y| == 4 * |p.compartments|
    requires Derivative(p, m, y, imports).Ok? && k < |p.compartments|
    ensures var n := |p.compartments|;
            var r := Derivative(p, m, y, imports).value;
            r[k] + r[n + k] + r[2 * n + k] + r[3 * n + k] == ImportedTotal(imports, n, k)
  {
    var n := |p.compartments|;
    FlowsBalance(p, MatVec(m, Block(y, 2, n)), y, k);
    var d := Flows(p, m, y);
    assert d.0[k] + d.1[k] + d.2[k] + d.3[k] == 0.0;
    match imports
    case None =>
      ConcatEntries(d.0, d.1, d.2, d.3, n, k);
    case Some(im) =>
      ImportedBalance(p, m, y, im, k);
  }

  /** The balance of one compartment with imports: the derivative adds the
      imports to flows that cancel out. */
  lemma ImportedBalance(p: Parameters, m: Matrix, y: Vector, im: Imports, k: nat)
    requires ValidParameters(p) && IsSquare(m, |p.compartments|) && |y| == 4 * |p.compartments|
    requires ImportsFit(im, |p.compartments|) && k < |p.compartments|
    requires var d := Flows(p, m, y);
             d.0[k] + d.1[k] + d.2[k] + d.3[k] == 0.0
    ensures var n := |p.compartments|;
            var r := Derivative(p, m, y, Some(im)).value;
            r[k] + r[n + k] + r[2 * n + k] + r[3 * n + k] == ImportedTotal(Some(im), n, k)
  {
    var d := Flows(p, m, y);
    ImportsBalance(d.0, d.1, d.2, d.3, im, |p.compartments|, k);
  }

  /** What the flows take out of one state they put into the next. */
  lemma FlowsBalance(p: Parameters, force: Vector, y: Vector, k: nat)
    requires ValidParameters(p) && |force| == |p.compartments| && |y| == 4 * |p.compartments|
    requires k < |p.compartments|
    ensures var d := FlowsUnder(p, force, y);
            d.0[k] + d.1[k] + d.2[k] + d.3[k] == 0.0
  {
    var n := |p.compartments|;
    var d := FlowsUnder(p, force, y);
    FlowsEntries(p, force, y, k);
    TelescopingSum(d.0[k], y[n + k] / p.incubationPeriod[k], y[2 * n + k] / p.infectiousPeriod[k]);
  }

  /** The four rates of compartment k. */
  lemma FlowsEntries(p: Parameters, force: Vector, y: Vector, k: nat)
    requires ValidParameters(p) && |force| == |p.compartments| && |y| == 4 * |p.compartments|
    requires k < |p.compartments|
    ensures var n := |p.compartments|;
            var d := FlowsUnder(p, force, y);
            var toE := y[n + k] / p.incubationPeriod[k];
            var toR := y[2 * n + k] / p.infectiousPeriod[k];
            d.0[k] == -(y[k] / p.population[k]) * force[k] &&
            d.1[k] == -d.0[k] - toE && d.2[k] == toE - toR && d.3[k] == toR
  {
  }

  lemma TelescopingSum(a: real, b: real, c: real)
    ensures a + (-a - b) + (b - c) + c == 0.0
  {
  }

  /** Entry k of each block of a + b + c + d. */
  lemma ConcatEntries(a: Vector, b: Vector, c: Vector, d: Vector, n: nat, k: nat)
    requires |a| == n && |b| == n && |c| == n && |d| == n && k < n
    ensures var y := a + b + c + d;
            |y| == 4 * n && y[k] == a[k] && y[n + k] == b[k] && y[2 * n + k] == c[k] && y[3 * n + k] == d[k]
  {
  }

  /** Imports added to balanced flows make the compartment grow by exactly
      the imports. */
  lemma ImportsBalance(d0: Vector, d1: Vector, d2: Vector, d3: Vector, im: Imports, n: nat, k: nat)
    requires |d0| == n && |d1| == n && |d2| == n && |d3| == n && k < n
    requires ImportsFit(im, n) && d0[k] + d1[k] + d2[k] + d3[k] == 0.0
    ensures AddInPlace(d0, im.ds).Ok? && AddInPlace(d1, im.de).Ok? && AddInPlace(d2, im.di).Ok?
    ensures var r := AddInPlace(d0, im.ds).value + AddInPlace(d1, im.de).value + AddInPlace(d2, im.di).value + d3;
            r[k] + r[n + k] + r[2 * n + k] + r[3 * n + k] == ImportAt(im.ds, n, k) + ImportAt(im.de, n, k) + ImportAt(im.di, n, k)
  {
    var dS, dE, dI := AddInPlace(d0, im.ds).value, AddInPlace(d1, im.de).value, AddInPlace(d2, im.di).value;
    ConcatEntries(dS, dE, dI, d3, n, k);
    assert dS[k] == d0[k] + ImportAt(im.ds, n, k);
    assert dE[k] == d1[k] + ImportAt(im.de, n, k);
    assert dI[k] == d2[k] + ImportAt(im.di, n, k);
  }

  /** Without exposed or infected people and without imports nothing changes. */
  lemma DiseaseFree(p: Parameters, m: Matrix, y: Vector)
    requires ValidParameters(p) && IsSquare(m, |p.compartments|) && |y| == 4 * |p.compartments|
    requires forall k :: |p.compartments| <= k < 3 * |p.compartments| ==> y[k] == 0.0
    ensures Derivative(p, m, y, None) == Ok(Const(4 * |p.compartments|, 0.0))
  {
    var n := |p.compartments|;
    FlowsVanish(p, m, y);
    var zero := Const(n, 0.0);
    assert zero + zero + zero + zero == Const(4 * n, 0.0);
  }

  lemma FlowsVanish(p: Parameters, m: Matrix, y: Vector)
    requires ValidParameters(p) && IsSquare(m, |p.compartments|) && |y| == 4 * |p.compartments|
    requires forall k :: |p.compartments| <= k < 3 * |p.compartments| ==> y[k] == 0.0
    ensures var d := Flows(p, m, y);
            var zero := Const(|p.compartments|, 0.0);
            d.0 == zero && d.1 == zero && d.2 == zero && d.3 == zero
  {
    var n := |p.compartments|;
    NoNewInfections(p, m, y);
    var d := Flows(p, m, y);
    forall k | 0 <= k < n
      ensures d.1[k] == 0.0 && d.2[k] == 0.0 && d.3[k] == 0.0
    {
      FlowsEntries(p, MatVec(m, Block(y, 2, n)), y, k);
      assert y[n + k] == 0.0 && y[2 * n + k] == 0.0;
    }
  }

  lemma NoNewInfections(p: Parameters, m: Matrix, y: Vector)
    requires ValidParameters(p) && IsSquare(m, |p.compartments|) && |y| == 4 * |p.compartments|
    requires forall k :: 2 * |p.compartments| <= k < 3 * |p.compartments| ==> y[k] == 0.0
    ensures Flows(p, m, y).0 == Const(|p.compartments|, 0.0)
  {
    var n := |p.compartments|;
    var i := Block(y, 2, n);
    forall row | 0 <= row < n
      ensures Dot(m[row], i) == 0.0
    {
      DotZero(m[row], i);
    }
  }

  lemma {:induction false} DotZero(u: Vector, v: Vector)
    requires |u| == |v| && forall k :: 0 <= k < |v| ==> v[k] == 0.0
    ensures Dot(u, v) == 0.0
  {
    if |u| > 0 {
      DotZero(u[..|u| - 1], v[..|v| - 1]);
    }
  }

  lemma {:induction false} DotNonNegative(u: Vector, v: Vector)
    requires |u| == |v|
    requires forall k :: 0 <= k < |u| ==> u[k] >= 0.0 && v[k] >= 0.0
    ensures Dot(u, v) >= 0.0
  {
    if |u| > 0 {
      DotNonNegative(u[..|u| - 1], v[..|v| - 1]);
      assert u[|u| - 1] * v[|v| - 1] >= 0.0;
    }
  }

  /** With non-negative S and I, positive populations and a non-negative
      infectivity, the susceptible never increase without imports. */
  lemma SusceptibleDecrease(p: Parameters, m: Matrix, y: Vector, k: nat)
    requires ValidParameters(p) && IsSquare(m, |p.compartments|) && |y| == 4 * |p.compartments|
    requires k < |p.compartments|
    requires forall i, j :: 0 <= i < |p.compartments| && 0 <= j < |p.compartments| ==> m[i][j] >= 0.0
    requires forall j :: 0 <= j < |p.compartments| ==> p.population[j] > 0.0
    requires forall j :: 0 <= j < |y| ==> y[j] >= 0.0
    ensures Derivative(p, m, y, None).value[k] <= 0.0
  {
    var n := |p.compartments|;
    var i := Block(y, 2, n);
    DotNonNegative(m[k], i);
    assert y[k] / p.population[k] >= 0.0;
    var d := Flows(p, m, y);
    assert d.0[k] <= 0.0;
  }

  /** The infectivity in effect at t: restrictions(t) * infectivity_matrix
      when there is a restriction function, the stored matrix otherwise. The
      restriction must be a scalar or an N x N matrix, the two forms the
      constructor documents; any other value is refused. */
  function EffectiveInfectivity(p: Parameters, restrictions: Option<real -> Modifier>, t: real): (r: Result<Matrix>)
    requires ValidParameters(p)
    ensures r.Ok? ==> IsSquare(r.value, |p.compartments|)
    ensures restrictions.None? ==> r == Ok(p.infectivity)
    ensures restrictions.Some? ==> (r.Ok? <==> Fits(restrictions.value(t), |p.compartments|))
    ensures r.Ok? && restrictions.Some? ==> forall i, j :: 0 <= i < |p.compartments| && 0 <= j < |p.compartments| ==>
              r.value[i][j] == EntryOf(restrictions.value(t), |p.compartments|, i, j) * p.infectivity[i][j]
  {
    var n := |p.compartments|;
    match restrictions
    case None => Ok(p.infectivity)
    case Some(f) => if Fits(f(t), n) then Ok(Hadamard(f(t), p.infectivity, n)) else Fail
  }

  /** A restriction of 1.0 leaves the infectivity as it is. */
  lemma UnrestrictedInfectivity(p: Parameters, f: real -> Modifier, t: real)
    requires ValidParameters(p) && f(t) == Scalar(1.0)
    ensures EffectiveInfectivity(p, Some(f), t) == Ok(p.infectivity)
  {
    var n := |p.compartments|;
    var r := EffectiveInfectivity(p, Some(f), t).value;
    forall i | 0 <= i < n
      ensures r[i] == p.infectivity[i]
    {
      forall j | 0 <= j < n
        ensures r[i][j] == p.infectivity[i][j]
      {
        assert EntryOf(Scalar(1.0), n, i, j) == 1.0;
      }
    }
    assert |r| == |p.infectivity|;
    assert r == p.infectivity;
  }

  // ---------------------------------------------------------------------------
  // Initial state

  /** The amounts as given, a number standing for a one-element list. */
  function Amounts(a: Param): Vector {
    match a
    case Single(x) => [x]
    case PerCompartment(xs) => xs
  }

  /** Counts of people: a number is split evenly over the compartments, a
      list must have one count per compartment. */
  function Counts(a: Param, n: nat): (r: Result<Vector>)
    requires n >= 1
    ensures r.Ok? <==> a.Single? || |a.xs| == n
    ensures r.Ok? ==> |r.value| == n
  {
    match a
    case Single(x) => Ok(Const(n, x / n as real))
    case PerCompartment(xs) => if |xs| == n then Ok(xs) else Fail
  }

  /** The people in one state: fractions of the population under
      `probabilities`, counts otherwise. */
  function Initial(a: Param, population: Vector, probabilities: bool): (r: Result<Vector>)
    requires |population| >= 1
  {
    if probabilities then Broadcast(Amounts(a), population, Times) else Counts(a, |population|)
  }

  /** set_initial_state: Y0 = [population - E - I, E, I, 0]. */
  function InitialState(p: Parameters, exposed: Param, infected: Param, probabilities: bool): (r: Result<Vector>)
    requires ValidParameters(p)
  {
    var n := |p.compartments|;
    var e :- Initial(exposed, p.population, probabilities);
    var i :- Initial(infected, p.population, probabilities);
    var s0 :- Broadcast(p.population, e, Minus);
    var s :- Broadcast(s0, i, Minus);
    Ok(s + e + i + Const(n, 0.0))
  }

  /** The amounts broadcast against N compartments to N entries. */
  predicate Fitting(a: Param, n: nat) {
    |Amounts(a)| == n || |Amounts(a)| == 1
  }

  /** Which arguments set_initial_state accepts: fitting fractions, or counts
      that are a number or N long. */
  predicate Accepted(a: Param, n: nat, probabilities: bool) {
    if probabilities then |Amounts(a)| == n || |Amounts(a)| == 1 || n == 1
    else a.Single? || |a.xs| == n
  }

  lemma InitialStateAccepts(p: Parameters, exposed: Param, infected: Param, probabilities: bool)
    requires ValidParameters(p)
    ensures var n := |p.compartments|;
            InitialState(p, exposed, infected, probabilities).Ok? <==>
              Accepted(exposed, n, probabilities) && Accepted(infected, n, probabilities) &&
              (probabilities && n == 1 ==> |Amounts(exposed)| == |Amounts(infected)| || |Amounts(exposed)| == 1 || |Amounts(infected)| == 1)
  {
  }

  /** Every compartment starts with its whole population spread over S, E, I
      and R, with nobody removed. */
  lemma InitialStateConserves(p: Parameters, exposed: Param, infected: Param, probabilities: bool, k: nat)
    requires ValidParameters(p) && k < |p.compartments|
    requires probabilities ==> Fitting(exposed, |p.compartments|) && Fitting(infected, |p.compartments|)
    requires InitialState(p, exposed, infected, probabilities).Ok?
    ensures var n := |p.compartments|;
            var y := InitialState(p, exposed, infected, probabilities).value;
            |y| == 4 * n && y[3 * n + k] == 0.0 &&
            y[k] + y[n + k] + y[2 * n + k] + y[3 * n + k] == p.population[k]
    ensures var n := |p.compartments|;
            var y := InitialState(p, exposed, infected, probabilities).value;
            var e := Initial(exposed, p.population, probabilities);
            e.Ok? && |e.value| == n && y[n + k] == e.value[k]
  {
    var n := |p.compartments|;
    var e := Initial(exposed, p.population, probabilities).value;
    var i := Initial(infected, p.population, probabilities).value;
    assert |e| == n && |i| == n;
    RemainderConserves(p.population, e, i, k);
  }

  /** Entry k of each block of [s, e, i, 0]. */
  lemma BlockEntries(s: Vector, e: Vector, i: Vector, n: nat, k: nat)
    requires |s| == n && |e| == n && |i| == n && k < n
    ensures var y := s + e + i + Const(n, 0.0);
            |y| == 4 * n && y[k] == s[k] && y[n + k] == e[k] && y[2 * n + k] == i[k] && y[3 * n + k] == 0.0
  {
  }

  /** S = population - E - I puts the whole population of compartment k into
      [S, E, I, 0]. */
  lemma RemainderConserves(population: Vector, e: Vector, i: Vector, k: nat)
    requires |e| == |population| && |i| == |population| && k < |population|
    ensures Broadcast(population, e, Minus).Ok?
    ensures var s0 := Broadcast(population, e, Minus).value;
            Broadcast(s0, i, Minus).Ok? &&
            var n := |population|;
            var y := Broadcast(s0, i, Minus).value + e + i + Const(n, 0.0);
            |y| == 4 * n && y[n + k] == e[k] && y[3 * n + k] == 0.0 &&
            y[k] + y[n + k] + y[2 * n + k] + y[3 * n + k] == population[k]
  {
    var n := |population|;
    var s0 := Broadcast(population, e, Minus).value;
    var s := Broadcast(s0, i, Minus).value;
    assert s0[k] == population[k] - e[k];
    assert s[k] == s0[k] - i[k];
    BlockEntries(s, e, i, n, k);
  }

  /** Under `probabilities` each compartment receives the given fraction of
      its population (one fraction for all, or one per compartment). */
  lemma InitialFractions(a: Param, population: Vector, k: nat)
    requires (|Amounts(a)| == |population| || |Amounts(a)| == 1) && k < |population|
    ensures Initial(a, population, true).Ok?
    ensures var f := Amounts(a);
            Initial(a, population, true).value[k] ==
              (if |f| == |population| then f[k] else f[0]) * population[k]
  {
  }

  lemma {:induction false} SumConst(n: nat, x: real)
    ensures Sum(Const(n, x)) == n as real * x
  {
    if n > 0 {
      assert Const(n, x)[..n - 1] == Const(n - 1, x);
      SumConst(n - 1, x);
    }
  }

  /** A single count of exposed people is split evenly: the compartments'
      exposed add up to that count. */
  lemma ExposedCountSplit(p: Parameters, x: real, infected: Param)
    requires ValidParameters(p)
    requires InitialState(p, Single(x), infected, false).Ok?
    ensures var n := |p.compartments|;
            var y := InitialState(p, Single(x), infected, false).value;
            |y| == 4 * n && Sum(Block(y, 1, n)) == x
  {
    var n := |p.compartments|;
    InitialStateConserves(p, Single(x), infected, false, 0);
    var y := InitialState(p, Single(x), infected, false).value;
    var e := Const(n, x / n as real);
    forall k | 0 <= k < n
      ensures y[n + k] == e[k]
    {
      InitialStateConserves(p, Single(x), infected, false, k);
    }
    assert Block(y, 1, n) == e;
    SplitEvenly(n, x);
  }

  lemma SplitEvenly(n: nat, x: real)
    requires n >= 1
    ensures Sum(Const(n, x / n as real)) == x
  {
    SumConst(n, x / n as real);
    assert n as real * (x / n as real) == x;
  }

  // ---------------------------------------------------------------------------
  // The solution, flat before t0

  /** The query times at or after t0, in order. */
  function AtOrAfter(time: seq<real>, t0: real): (r: seq<real>)
    ensures |r| <= |time|
    ensures forall k :: 0 <= k < |r| ==> r[k] >= t0
  {
    if |time| == 0 then []
    else if time[|time| - 1] >= t0 then AtOrAfter(time[..|time| - 1], t0) + [time[|time| - 1]]
    else AtOrAfter(time[..|time| - 1], t0)
  }

  /** SEIR_solution: Y0 for each query before t0, stacked above the dense
      solution at the queries from t0 on. */
  function SolutionRows(dense: real -> Vector, t0: real, y0: Vector, time: seq<real>): (rows: seq<Vector>)
    ensures |rows| == |time|
  {
    var after := AtOrAfter(time, t0);
    if |after| == |time| then seq(|time|, k requires 0 <= k < |time| => dense(time[k]))
    else if |after| == 0 then seq(|time|, _ => y0)
    else seq(|time| - |after|, _ => y0) + seq(|after|, k requires 0 <= k < |after| => dense(after[k]))
  }

  /** The SEIR_solution callable: an empty query array takes the all-kept
      branch and hands the solver an empty selection, which it refuses; any
      other query array gives the rows above. */
  function Solution(dense: real -> Vector, t0: real, y0: Vector, time: seq<real>): (r: Result<seq<Vector>>)
    ensures r.Ok? <==> |time| > 0
    ensures r.Ok? ==> |r.value| == |time| && r.value == SolutionRows(dense, t0, y0, time)
  {
    if |time| == 0 then Fail
    else Ok(SolutionRows(dense, t0, y0, time))
  }

  /** The rows: first one Y0 per query before t0, then the dense solution at
      the remaining queries in their order. */
  lemma SolutionRowsLayout(dense: real -> Vector, t0: real, y0: Vector, time: seq<real>)
    ensures var rows := SolutionRows(dense, t0, y0, time);
            var after := AtOrAfter(time, t0);
            (forall k :: 0 <= k < |time| - |after| ==> rows[k] == y0) &&
            (forall k :: 0 <= k < |after| ==> rows[|time| - |after| + k] == dense(after[k]))
  {
    var rows := SolutionRows(dense, t0, y0, time);
    var after := AtOrAfter(time, t0);
    var c := |time| - |after|;
    if |after| == |time| {
      AllAfter(time, t0);
      assert rows == seq(|time|, k requires 0 <= k < |time| => dense(time[k]));
    } else if |after| == 0 {
      assert rows == seq(|time|, _ => y0);
    } else {
      var head, tail := seq(c, _ => y0), seq(|after|, k requires 0 <= k < |after| => dense(after[k]));
      assert rows == head + tail;
      forall k | 0 <= k < |after|
        ensures rows[c + k] == dense(after[k])
      {
        assert rows[c + k] == tail[k];
      }
    }
  }

  /** Row k alone: Y0 for one of the first time.size - |kept| rows, else the
      dense solution at the matching kept query. */
  lemma SolutionRowAt(dense: real -> Vector, t0: real, y0: Vector, time: seq<real>, k: nat)
    requires k < |time|
    ensures var c := |time| - |AtOrAfter(time, t0)|;
            SolutionRows(dense, t0, y0, time)[k] == if k < c then y0 else dense(AtOrAfter(time, t0)[k - c])
  {
    var after := AtOrAfter(time, t0);
    var c := |time| - |after|;
    SolutionRowsLayout(dense, t0, y0, time);
    if k >= c {
      var i := k - c;
      assert |time| - |after| + i == k;
    }
  }

  lemma {:induction false} AllAfter(time: seq<real>, t0: real)
    requires |AtOrAfter(time, t0)| == |time|
    ensures AtOrAfter(time, t0) == time
  {
    if |time| > 0 {
      var init := time[..|time| - 1];
      if time[|time| - 1] >= t0 {
        AllAfter(init, t0);
      }
      assert time == init + [time[|time| - 1]];
    }
  }

  /** The number of queries before t0. */
  function CountBefore(time: seq<real>, t0: real): (c: nat)
    ensures c == |time| - |AtOrAfter(time, t0)|
  {
    if |time| == 0 then 0
    else CountBefore(time[..|time| - 1], t0) + (if time[|time| - 1] < t0 then 1 else 0)
  }

  /** For ascending query times the queries before t0 come first, and the rest
      are exactly the ones AtOrAfter keeps. */
  lemma {:induction false} SortedSplit(time: seq<real>, t0: real)
    requires Sorted(time)
    ensures var c := CountBefore(time, t0);
            (forall k :: 0 <= k < c ==> time[k] < t0) &&
            AtOrAfter(time, t0) == time[c..]
  {
    if |time| > 0 {
      var n := |time|;
      var last := time[n - 1];
      if last >= t0 {
        SortedInit(time);
        SortedSplit(time[..n - 1], t0);
        SplitSnoc(time, t0);
      } else {
        forall k | 0 <= k < n
          ensures time[k] < t0
        {
          assert time[k] <= time[n - 1];
        }
        NoneAtOrAfter(time, t0);
      }
    }
  }

  lemma SortedInit(time: seq<real>)
    requires Sorted(time) && |time| > 0
    ensures Sorted(time[..|time| - 1])
  {
    var init := time[..|time| - 1];
    forall a, b | 0 <= a <= b < |init|
      ensures init[a] <= init[b]
    {
      assert init[a] == time[a] && init[b] == time[b];
    }
  }

  /** Appending a query at or after t0 to a split query array keeps it split. */
  lemma SplitSnoc(time: seq<real>, t0: real)
    requires |time| > 0 && time[|time| - 1] >= t0
    requires var init := time[..|time| - 1];
             var ci := CountBefore(init, t0);
             (forall k :: 0 <= k < ci ==> init[k] < t0) && AtOrAfter(init, t0) == init[ci..]
    ensures var c := CountBefore(time, t0);
            (forall k :: 0 <= k < c ==> time[k] < t0) && AtOrAfter(time, t0) == time[c..]
  {
    var init := time[..|time| - 1];
    var last := time[|time| - 1];
    var ci := CountBefore(init, t0);
    assert CountBefore(time, t0) == ci;
    assert AtOrAfter(time, t0) == init[ci..] + [last];
    assert time[ci..] == init[ci..] + [last];
    forall k | 0 <= k < ci
      ensures time[k] < t0
    {
      assert time[k] == init[k];
    }
  }

  lemma {:induction false} NoneAtOrAfter(time: seq<real>, t0: real)
    requires forall k :: 0 <= k < |time| ==> time[k] < t0
    ensures AtOrAfter(time, t0) == []
  {
    if |time| > 0 {
      NoneAtOrAfter(time[..|time| - 1], t0);
    }
  }

  /** The solution flat before t0: for ascending queries, row k is Y0 when
      time[k] < t0 and the dense solution at time[k] otherwise. */
  lemma FlatBeforeStart(dense: real -> Vector, t0: real, y0: Vector, time: seq<real>, k: nat)
    requires Sorted(time) && k < |time|
    ensures SolutionRows(dense, t0, y0, time)[k] == if time[k] < t0 then y0 else dense(time[k])
  {
    SortedSplit(time, t0);
    SolutionRowsLayout(dense, t0, y0, time);
    var c := CountBefore(time, t0);
    if k >= c {
      assert AtOrAfter(time, t0)[k - c] == time[k];
    }
  }

  /** With no query before t0 no Y0 row is inserted. */
  lemma NoRowsBeforeStart(dense: real -> Vector, t0: real, y0: Vector, time: seq<real>)
    requires forall k :: 0 <= k < |time| ==> time[k] >= t0
    ensures SolutionRows(dense, t0, y0, time) == seq(|time|, k requires 0 <= k < |time| => dense(time[k]))
  {
    EveryQueryKept(time, t0);
  }

  lemma {:induction false} EveryQueryKept(time: seq<real>, t0: real)
    requires forall k :: 0 <= k < |time| ==> time[k] >= t0
    ensures AtOrAfter(time, t0) == time
  {
    if |time| > 0 {
      EveryQueryKept(time[..|time| - 1], t0);
      assert time == time[..|time| - 1] + [time[|time| - 1]];
    }
  }
}
