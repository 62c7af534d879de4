/** The older engine of seir/model.py: the same four states per age group,
    with t0 fixed at 0, contacts that are not symmetrised, and running sums
    (np.cumsum) where the newer engine integrates. Its right-hand side is
    the newer engine's (SeirModel.Derivative) on the same per-group vectors. */
module LegacySeir {
  import opened Wrappers
  import opened Numeric
  import opened SeirModel
  import SeirEvaluate

  /** A Python number: np.ones takes an int as a length and refuses a float. */
  datatype Number = Int(i: int) | Float(x: real)

  function NumberValue(d: Number): real {
    match d
    case Int(i) => i as real
    case Float(x) => x
  }

  /** The keyword arguments of SEIR.__init__ (T_immunity is accepted and never read). */
  datatype LegacyArguments = LegacyArguments(
    incubationPeriod: Param,
    infectiousPeriod: Param,
    initialR0: real,
    hospitalizationProbability: Param,
    hospitalizationDuration: Number,
    hospitalizationLag: real,
    icuProbability: Param,
    icuDuration: Number,
    icuLag: real,
    deathProbability: Param,
    deathLag: real,
    population: Param,
    ageGroups: Option<seq<(int, int)>>,
    contactsMatrix: Option<Matrix>)

  /** A constructed engine: its age groups, the two durations as given, and
      the per-group vectors and infectivity matrix in the newer engine's
      shape, one unnamed compartment per age group. */
  datatype Legacy = Legacy(ageGroups: seq<(int, int)>, hospitalizationDuration: Number, icuDuration: Number,
                           core: Parameters)

  predicate ValidLegacy(lp: Legacy) {
    ValidParameters(lp.core) && |lp.core.compartments| == |lp.ageGroups|
  }

  /** The age groups given, or the single group (0, 150) when None or empty. */
  function AgeGroups(groups: Option<seq<(int, int)>>): seq<(int, int)> {
    if groups.Some? && |groups.value| > 0 then groups.value else [(0, 150)]
  }

  // ---------------------------------------------------------------------------
  // Contacts

  /** The entries of a matrix row by row; their number is the array's size. */
  function Entries(m: Matrix): Vector {
    if |m| == 0 then [] else Entries(m[..|m| - 1]) + m[|m| - 1]
  }

  lemma {:induction false} EntriesCount(m: Matrix, w: nat)
    requires HasWidth(m, w)
    ensures |Entries(m)| == |m| * w
  {
    if |m| > 0 {
      EntriesCount(m[..|m| - 1], w);
    }
  }

  /** `if contacts_matrix:` with the default np.ones((N, N)). An empty array is
      false, an array of one entry has that entry's truth value, and the truth
      value of a larger array is a ValueError. A true matrix must be N x N. */
  function Contacts(c: Option<Matrix>, n: nat): (r: Result<Matrix>)
    ensures r.Ok? ==> IsSquare(r.value, n)
  {
    match c
    case None => Ok(Ones(n))
    case Some(m) =>
      var size := |Entries(m)|;
      if size == 0 then Ok(Ones(n))
      else if size > 1 then Fail
      else if Entries(m)[0] == 0.0 then Ok(Ones(n))
      else if IsSquare(m, n) then Ok(m)
      else Fail
  }

  /** A given contacts matrix is used only as the single non-zero entry of a
      one-group engine: any matrix of two or more entries is refused, and
      otherwise the contacts are all ones. */
  lemma ContactsGiven(m: Matrix, n: nat)
    ensures |Entries(m)| >= 2 ==> Contacts(Some(m), n).Fail?
    ensures Contacts(Some(m), n).Ok? ==>
              Contacts(Some(m), n).value == Ones(n) ||
              (n == 1 && Contacts(Some(m), n).value == m && m == [[m[0][0]]] && m[0][0] != 0.0)
  {
    var size := |Entries(m)|;
    if size == 1 && Entries(m)[0] != 0.0 && IsSquare(m, n) {
      EntriesCount(m, n);
      assert n == 1;
      assert m[..0] == [];
      assert Entries(m) == m[0];
      assert m[0] == [m[0][0]];
    }
  }

  /** Whatever contacts the constructor accepts are symmetric. */
  lemma ContactsSymmetric(c: Option<Matrix>, n: nat)
    requires Contacts(c, n).Ok?
    ensures Symmetric(Contacts(c, n).value, n)
  {
    if c.Some? {
      ContactsGiven(c.value, n);
    }
  }

  // ---------------------------------------------------------------------------
  // Infectivity matrix

  /** normalization * contacts_matrix: column j of the contacts scaled by the
      normalisation of group j, without symmetrising. */
  function LegacyInfectivity(infectious: Vector, r0: real, population: Vector, contacts: Matrix): (m: Matrix)
    requires |infectious| == |population| && NonZero(infectious)
    requires IsSquare(contacts, |population|) && ContactWeight(population, contacts) != 0.0
    ensures IsSquare(m, |population|)
  {
    ScaleColumns(Normalization(infectious, r0, population, contacts), contacts, |population|)
  }

  /** On symmetric contacts the missing symmetrisation makes no difference:
      the older engine's matrix is the newer engine's. */
  lemma LegacyInfectivitySymmetric(infectious: Vector, r0: real, population: Vector, contacts: Matrix)
    requires |infectious| == |population| && NonZero(infectious)
    requires IsSquare(contacts, |population|) && ContactWeight(population, contacts) != 0.0
    requires Symmetric(contacts, |population|)
    ensures LegacyInfectivity(infectious, r0, population, contacts) == Infectivity(infectious, r0, population, contacts)
  {
    SymmetrizedFixed(contacts, |population|);
  }

  // ---------------------------------------------------------------------------
  // Constructor

  /** SEIR.__init__: the age groups default to [(0, 150)], the per-group
      arguments are fixed in size, a scalar population needs a single group,
      and the contacts pass `if contacts_matrix:`. Divisions by zero in the
      normalisation or the rates are refused. */
  function LegacyConfigure(a: LegacyArguments): (r: Result<Legacy>)
    ensures r.Ok? ==> ValidLegacy(r.value) && |r.value.ageGroups| >= 1
    ensures r.Ok? && a.ageGroups.Some? && |a.ageGroups.value| > 0 ==> r.value.ageGroups == a.ageGroups.value
    ensures r.Ok? && (a.ageGroups.None? || |a.ageGroups.value| == 0) ==> r.value.ageGroups == [(0, 150)]
    ensures r.Ok? && a.population.Single? ==> |r.value.ageGroups| == 1
    ensures a.contactsMatrix.Some? && |Entries(a.contactsMatrix.value)| >= 2 ==> r.Fail?
  {
    var groups := AgeGroups(a.ageGroups);
    var n := |groups|;
    var incubation :- FixSize(a.incubationPeriod, n);
    var infectious :- FixSize(a.infectiousPeriod, n);
    var hospitalization :- FixSize(a.hospitalizationProbability, n);
    var icu :- FixSize(a.icuProbability, n);
    var death :- FixSize(a.deathProbability, n);
    var _ :- if a.population.Single? && n != 1 then Fail else Ok(());
    var population :- FixSize(a.population, n);
    var contacts :- Contacts(a.contactsMatrix, n);
    var _ :- if Finite(infectious, population, contacts) && NonZero(incubation) && NonZero(population)
             then Ok(()) else Fail;
    Ok(Legacy(groups, a.hospitalizationDuration, a.icuDuration,
              Parameters(seq(n, _ => ""), incubation, infectious, a.initialR0,
                         hospitalization, NumberValue(a.hospitalizationDuration), a.hospitalizationLag,
                         icu, NumberValue(a.icuDuration), a.icuLag, death, a.deathLag, population,
                         LegacyInfectivity(infectious, a.initialR0, population, contacts))))
  }

  /** A successful construction keeps each fixed-size argument, and its
      infectivity matrix is the newer engine's for the accepted contacts. */
  lemma LegacyConfigureStores(a: LegacyArguments)
    requires LegacyConfigure(a).Ok?
    ensures var lp := LegacyConfigure(a).value;
            var n := |lp.ageGroups|;
            FixSize(a.incubationPeriod, n) == Ok(lp.core.incubationPeriod) &&
            FixSize(a.infectiousPeriod, n) == Ok(lp.core.infectiousPeriod) &&
            FixSize(a.population, n) == Ok(lp.core.population) &&
            FixSize(a.hospitalizationProbability, n) == Ok(lp.core.hospitalizationProbability) &&
            FixSize(a.icuProbability, n) == Ok(lp.core.icuProbability) &&
            FixSize(a.deathProbability, n) == Ok(lp.core.deathProbability)
    ensures var lp := LegacyConfigure(a).value;
            var n := |lp.ageGroups|;
            var contacts := Contacts(a.contactsMatrix, n);
            contacts.Ok? && Finite(lp.core.infectiousPeriod, lp.core.population, contacts.value) &&
            lp.core.infectivity == Infectivity(lp.core.infectiousPeriod, a.initialR0, lp.core.population, contacts.value)
  {
    var lp := LegacyConfigure(a).value;
    var n := |lp.ageGroups|;
    var contacts := Contacts(a.contactsMatrix, n).value;
    ContactsSymmetric(a.contactsMatrix, n);
    LegacyInfectivitySymmetric(lp.core.infectiousPeriod, a.initialR0, lp.core.population, contacts);
  }

  // ---------------------------------------------------------------------------
  // Right-hand side

  /** __call__: any restrictions_function makes it read the unbound global
      `restrictions_function` (a NameError); otherwise Y splits into four
      blocks of N and the flows and imports are the newer engine's. */
  function LegacyRightHandSide(lp: Legacy, restricted: bool, imports: Option<Imports>, y: Vector): (r: Result<Vector>)
    requires ValidLegacy(lp)
    ensures r.Ok? <==> !restricted && |y| == 4 * |lp.ageGroups| &&
                       (imports.None? || ImportsFit(imports.value, |lp.ageGroups|))
    ensures r.Ok? ==> |r.value| == |y|
  {
    if restricted || |y| != 4 * |lp.ageGroups| then Fail
    else Derivative(lp.core, lp.core.infectivity, y, imports)
  }

  /** Without imports nobody enters or leaves an age group: its four rates
      add up to the imported total (zero without imports). */
  lemma LegacyConservation(lp: Legacy, imports: Option<Imports>, y: Vector, k: nat)
    requires ValidLegacy(lp) && LegacyRightHandSide(lp, false, imports, y).Ok? && k < |lp.ageGroups|
    ensures var n := |lp.ageGroups|;
            var r := LegacyRightHandSide(lp, false, imports, y).value;
            r[k] + r[n + k] + r[2 * n + k] + r[3 * n + k] == ImportedTotal(imports, n, k)
  {
    var r := LegacyRightHandSide(lp, false, imports, y);
    assert r == Derivative(lp.core, lp.core.infectivity, y, imports);
    Conservation(lp.core, lp.core.infectivity, y, imports, k);
  }

  /** With nobody exposed or infected and no imports the state does not change. */
  lemma LegacyDiseaseFree(lp: Legacy, y: Vector)
    requires ValidLegacy(lp) && |y| == 4 * |lp.ageGroups|
    requires forall k :: |lp.ageGroups| <= k < 3 * |lp.ageGroups| ==> y[k] == 0.0
    ensures LegacyRightHandSide(lp, false, None, y) == Ok(Const(4 * |lp.ageGroups|, 0.0))
  {
    DiseaseFree(lp.core, lp.core.infectivity, y);
  }

  // ---------------------------------------------------------------------------
  // Initial state

  /** The counts branch of set_initial_state: a number goes to the undefined
      `_fix_sizes` (an AttributeError), an array must have one count per group. */
  function LegacyCounts(a: Param, n: nat): (r: Result<Vector>)
    ensures r.Ok? ==> |r.value| == n
  {
    match a
    case Single(_) => Fail
    case PerCompartment(xs) => if |xs| == n then Ok(xs) else Fail
  }

  /** The people in one state: np.multiply(fraction, population) under
      `probabilities`, the counts otherwise. */
  function LegacyAmounts(a: Param, population: Vector, probabilities: bool): Result<Vector> {
    if probabilities then Broadcast(Amounts(a), population, Times) else LegacyCounts(a, |population|)
  }

  /** set_initial_state: Y0 = [S, E, I, 0], with S, E and I the fractions of
      the population under `probabilities`, the counts otherwise. */
  function LegacyInitialState(lp: Legacy, susceptible: Param, exposed: Param, infected: Param,
                              probabilities: bool): (r: Result<Vector>)
    requires ValidLegacy(lp)
  {
    var n := |lp.ageGroups|;
    var population := lp.core.population;
    var s :- LegacyAmounts(susceptible, population, probabilities);
    var e :- LegacyAmounts(exposed, population, probabilities);
    var i :- LegacyAmounts(infected, population, probabilities);
    Ok(s + e + i + Const(n, 0.0))
  }

  /** Counts are accepted only as arrays of one count per group: every number fails. */
  lemma LegacyCountsAccepted(lp: Legacy, susceptible: Param, exposed: Param, infected: Param)
    requires ValidLegacy(lp)
    ensures var n := |lp.ageGroups|;
            LegacyInitialState(lp, susceptible, exposed, infected, false).Ok? <==>
              susceptible.PerCompartment? && |susceptible.xs| == n &&
              exposed.PerCompartment? && |exposed.xs| == n &&
              infected.PerCompartment? && |infected.xs| == n
    ensures LegacyInitialState(lp, susceptible, exposed, infected, false).Ok? ==>
              LegacyInitialState(lp, susceptible, exposed, infected, false).value ==
                susceptible.xs + exposed.xs + infected.xs + Const(|lp.ageGroups|, 0.0)
  {
  }

  /** The fraction for group k: one per group, or one for all. */
  function FractionAt(a: Param, n: nat, k: nat): real
    requires Fitting(a, n) && k < n
  {
    if |Amounts(a)| == n then Amounts(a)[k] else Amounts(a)[0]
  }

  /** np.multiply(fraction, population) for a fraction that fits the groups. */
  function FractionTimes(a: Param, population: Vector): (v: Vector)
    requires Fitting(a, |population|) && |population| >= 1
    ensures |v| == |population| && forall k :: 0 <= k < |population| ==> v[k] == FractionAt(a, |population|, k) * population[k]
  {
    seq(|population|, k requires 0 <= k < |population| => FractionAt(a, |population|, k) * population[k])
  }

  lemma FractionBroadcast(a: Param, population: Vector)
    requires Fitting(a, |population|) && |population| >= 1
    ensures Broadcast(Amounts(a), population, Times) == Ok(FractionTimes(a, population))
  {
    var r := Broadcast(Amounts(a), population, Times);
    assert r.Ok? && |r.value| == |population|;
    forall k | 0 <= k < |population|
      ensures r.value[k] == FractionTimes(a, population)[k]
    {
      assert r.value[k] == Times(Amounts(a)[if |Amounts(a)| == 1 then 0 else k], population[k]);
    }
    assert r.value == FractionTimes(a, population);
  }

  /** [S, E, I, 0] from fractions that fit the groups. */
  function FractionsState(susceptible: Param, exposed: Param, infected: Param, population: Vector): (y: Vector)
    requires |population| >= 1
    requires Fitting(susceptible, |population|) && Fitting(exposed, |population|) && Fitting(infected, |population|)
    ensures |y| == 4 * |population|
  {
    FractionTimes(susceptible, population) + FractionTimes(exposed, population) +
    FractionTimes(infected, population) + Const(|population|, 0.0)
  }

  /** set_initial_state accepts fractions that fit the groups. */
  lemma FractionsAccepted(lp: Legacy, susceptible: Param, exposed: Param, infected: Param)
    requires ValidLegacy(lp)
    requires Fitting(susceptible, |lp.ageGroups|) && Fitting(exposed, |lp.ageGroups|) && Fitting(infected, |lp.ageGroups|)
    ensures LegacyInitialState(lp, susceptible, exposed, infected, true) ==
              Ok(FractionsState(susceptible, exposed, infected, lp.core.population))
  {
    FractionBroadcast(susceptible, lp.core.population);
    FractionBroadcast(exposed, lp.core.population);
    FractionBroadcast(infected, lp.core.population);
  }

  /** Under `probabilities` group k holds the sum of its three fractions times
      its population, with nobody removed. */
  lemma LegacyInitialStateTotals(susceptible: Param, exposed: Param, infected: Param, population: Vector, k: nat)
    requires k < |population|
    requires Fitting(susceptible, |population|) && Fitting(exposed, |population|) && Fitting(infected, |population|)
    ensures var n := |population|;
            var y := FractionsState(susceptible, exposed, infected, population);
            y[3 * n + k] == 0.0 &&
            y[k] + y[n + k] + y[2 * n + k] + y[3 * n + k] ==
              (FractionAt(susceptible, n, k) + FractionAt(exposed, n, k) + FractionAt(infected, n, k)) * population[k]
  {
    var n := |population|;
    FractionsStateEntries(susceptible, exposed, infected, population, k);
    GroupSum(FractionsState(susceptible, exposed, infected, population), n, k,
             FractionAt(susceptible, n, k), FractionAt(exposed, n, k), FractionAt(infected, n, k), population[k]);
  }

  /** Group k of the state holds each fraction times its population, and no one removed. */
  lemma FractionsStateEntries(susceptible: Param, exposed: Param, infected: Param, population: Vector, k: nat)
    requires k < |population|
    requires Fitting(susceptible, |population|) && Fitting(exposed, |population|) && Fitting(infected, |population|)
    ensures var n := |population|;
            var y := FractionsState(susceptible, exposed, infected, population);
            y[k] == FractionAt(susceptible, n, k) * population[k] &&
            y[n + k] == FractionAt(exposed, n, k) * population[k] &&
            y[2 * n + k] == FractionAt(infected, n, k) * population[k] &&
            y[3 * n + k] == 0.0
  {
    BlockEntries(FractionTimes(susceptible, population), FractionTimes(exposed, population),
                 FractionTimes(infected, population), |population|, k);
  }

  lemma GroupSum(y: Vector, n: nat, k: nat, a: real, b: real, c: real, p: real)
    requires |y| == 4 * n && k < n
    requires y[k] == a * p && y[n + k] == b * p && y[2 * n + k] == c * p && y[3 * n + k] == 0.0
    ensures y[k] + y[n + k] + y[2 * n + k] + y[3 * n + k] == (a + b + c) * p
  {
  }


  /** With one fraction each for S, E and I, every group starts with exactly
      its population if and only if the fractions add up to one. */
  lemma LegacyInitialStateWhole(lp: Legacy, fs: real, fe: real, fi: real, k: nat)
    requires ValidLegacy(lp) && k < |lp.ageGroups|
    ensures LegacyInitialState(lp, Single(fs), Single(fe), Single(fi), true).Ok?
    ensures var n := |lp.ageGroups|;
            var y := LegacyInitialState(lp, Single(fs), Single(fe), Single(fi), true).value;
            y[k] + y[n + k] + y[2 * n + k] + y[3 * n + k] == lp.core.population[k] <==> fs + fe + fi == 1.0
  {
    var p := lp.core.population[k];
    FractionsAccepted(lp, Single(fs), Single(fe), Single(fi));
    LegacyInitialStateTotals(Single(fs), Single(fe), Single(fi), lp.core.population, k);
    assert (fs + fe + fi) * p - p == (fs + fe + fi - 1.0) * p;
    assert p != 0.0;
  }

  // ---------------------------------------------------------------------------
  // The solution, flat before 0

  /** Every row of SEIR_solution is Y0 or a row of the dense solution, so
      non-negative states give non-negative rows. */
  lemma RowsNonNegative(dense: real -> Vector, t0: real, y0: Vector, time: seq<real>, k: nat, j: nat)
    requires forall t, c :: 0 <= c < |dense(t)| ==> dense(t)[c] >= 0.0
    requires forall c :: 0 <= c < |y0| ==> y0[c] >= 0.0
    requires k < |time| && j < |SolutionRows(dense, t0, y0, time)[k]|
    ensures SolutionRows(dense, t0, y0, time)[k][j] >= 0.0
  {
    SolutionRowAt(dense, t0, y0, time, k);
  }

  /** Some query is at or after t. */
  predicate SomeAtOrAfter(time: seq<real>, t: real) {
    exists k :: 0 <= k < |time| && time[k] >= t
  }

  /** time[time >= t0] is empty exactly when no query reaches t0. */
  lemma {:induction false} KeptIffSome(time: seq<real>, t0: real)
    ensures AtOrAfter(time, t0) == [] <==> !SomeAtOrAfter(time, t0)
  {
    if |time| > 0 {
      var init := time[..|time| - 1];
      KeptIffSome(init, t0);
      if SomeAtOrAfter(init, t0) {
        var k :| 0 <= k < |init| && init[k] >= t0;
        assert time[k] == init[k];
      }
      if SomeAtOrAfter(time, t0) && time[|time| - 1] < t0 {
        var k :| 0 <= k < |time| && time[k] >= t0;
        assert k < |init| && init[k] == time[k];
      }
    }
  }

  /** SEIR_solution of the older engine, with the solution starting at 0: it
      hands solution.sol the queries >= 0 whether or not there are any, and
      the solver refuses an empty selection; otherwise Y0 rows for the
      negative queries come first. */
  function LegacySolution(dense: real -> Vector, y0: Vector, time: seq<real>): (r: Result<seq<Vector>>)
    ensures r.Ok? <==> SomeAtOrAfter(time, 0.0)
    ensures r.Ok? ==> r.value == SolutionRows(dense, 0.0, y0, time)
  {
    KeptIffSome(time, 0.0);
    if AtOrAfter(time, 0.0) == [] then Fail else Ok(SolutionRows(dense, 0.0, y0, time))
  }

  /** With no negative query SEIR_solution is the dense solution at each
      query; with only negative queries (or none at all) it fails. */
  lemma LegacySolutionRows(dense: real -> Vector, y0: Vector, time: seq<real>)
    ensures LegacySolution(dense, y0, time).Ok? ==> |LegacySolution(dense, y0, time).value| == |time|
    ensures |time| >= 1 && (forall k :: 0 <= k < |time| ==> time[k] >= 0.0) ==>
              LegacySolution(dense, y0, time).Ok? &&
              forall k :: 0 <= k < |time| ==> LegacySolution(dense, y0, time).value[k] == dense(time[k])
    ensures (forall k :: 0 <= k < |time| ==> time[k] < 0.0) ==> LegacySolution(dense, y0, time).Fail?
  {
    if |time| >= 1 && forall k :: 0 <= k < |time| ==> time[k] >= 0.0 {
      assert time[0] >= 0.0;
      NoRowsBeforeStart(dense, 0.0, y0, time);
    }
  }

  /** SEIR_solution(time - lag) succeeds iff some query is at or after lag. */
  lemma LaggedSolvable(time: seq<real>, lag: real)
    ensures SomeAtOrAfter(Shift(time, lag), 0.0) <==> SomeAtOrAfter(time, lag)
  {
    var shifted := Shift(time, lag);
    if SomeAtOrAfter(time, lag) {
      var k :| 0 <= k < |time| && time[k] >= lag;
      assert shifted[k] >= 0.0;
    }
    if SomeAtOrAfter(shifted, 0.0) {
      var k :| 0 <= k < |shifted| && shifted[k] >= 0.0;
      assert time[k] >= lag;
    }
  }

  // ---------------------------------------------------------------------------
  // evaluate_solution

  /** np.cumsum(rate, axis=0): each group's running total. */
  function Running(rate: seq<Vector>, n: nat): (total: seq<Vector>)
    requires HasWidth(rate, n)
    ensures |total| == |rate| && HasWidth(total, n)
  {
    seq(|rate|, k requires 0 <= k < |rate| => seq(n, c requires 0 <= c < n => CumSum(Numeric.Column(rate, c))[k]))
  }

  /** The running total holds the first k + 1 days: it starts at the first
      day's value and adds each next day's. */
  lemma RunningSteps(rate: seq<Vector>, n: nat, k: nat, c: nat)
    requires HasWidth(rate, n) && k < |rate| && c < n
    ensures Running(rate, n)[k][c] == Sum(Numeric.Column(rate, c)[..k + 1])
    ensures k == 0 ==> Running(rate, n)[0][c] == rate[0][c]
    ensures k + 1 < |rate| ==> Running(rate, n)[k + 1][c] == Running(rate, n)[k][c] + rate[k + 1][c]
  {
    var col := Numeric.Column(rate, c);
    CumSumPrefix(col, k);
    if k == 0 {
      assert col[..1][..0] == [];
    }
    if k + 1 < |rate| {
      CumSumPrefix(col, k + 1);
      assert col[..k + 2][..k + 1] == col[..k + 1];
    }
  }

  /** Running totals of non-negative values never decrease. */
  lemma RunningNonDecreasing(rate: seq<Vector>, n: nat, k: nat, c: nat)
    requires HasWidth(rate, n) && k + 1 < |rate| && c < n
    requires forall d :: 0 <= d < |rate| ==> rate[d][c] >= 0.0
    ensures Running(rate, n)[k][c] <= Running(rate, n)[k + 1][c]
  {
    RunningSteps(rate, n, k, c);
  }

  /** Icumulative: the running total of E / incubation_period per group. The
      older engine computes it and leaves it out of its results. */
  function CumulativeInfected(lp: Legacy, rows: seq<Vector>): (total: seq<Vector>)
    requires ValidLegacy(lp) && HasWidth(rows, 4 * |lp.ageGroups|)
    ensures |total| == |rows| && HasWidth(total, |lp.ageGroups|)
    ensures forall k, c :: 0 <= k < |rows| && 0 <= c < |lp.ageGroups| ==>
              total[k][c] == Sum(Numeric.Column(NewInfections(lp, rows), c)[..k + 1])
  {
    var n := |lp.ageGroups|;
    var rate := NewInfections(lp, rows);
    forall k, c | 0 <= k < |rows| && 0 <= c < n
      ensures Running(rate, n)[k][c] == Sum(Numeric.Column(rate, c)[..k + 1])
    {
      RunningSteps(rate, n, k, c);
    }
    Running(rate, n)
  }

  /** E / incubation_period at each row: the new infectious cases a day. */
  function NewInfections(lp: Legacy, rows: seq<Vector>): (rate: seq<Vector>)
    requires ValidLegacy(lp) && HasWidth(rows, 4 * |lp.ageGroups|)
    ensures |rate| == |rows| && HasWidth(rate, |lp.ageGroups|)
  {
    var n := |lp.ageGroups|;
    seq(|rows|, k requires 0 <= k < |rows| => seq(n, c requires 0 <= c < n =>
      Block(rows[k], 1, n)[c] / lp.core.incubationPeriod[c]))
  }

  /** np.ones(d) as a window: an int of at least 0; a float is a TypeError and
      a negative length a ValueError. */
  function WindowLength(d: Number): (r: Result<nat>)
    ensures r.Ok? <==> d.Int? && d.i >= 0
    ensures r.Ok? ==> r.value == d.i
  {
    if d.Int? && d.i >= 0 then Ok(d.i) else Fail
  }

  /** The 7-tuple of evaluate_solution: the four states at the queries, the
      active hospital and ICU cases, and the running total of deaths. */
  datatype LegacyResults = LegacyResults(
    susceptible: seq<Vector>,
    exposed: seq<Vector>,
    infected: seq<Vector>,
    recovered: seq<Vector>,
    hospitalized: seq<Vector>,
    icu: seq<Vector>,
    deaths: seq<Vector>)

  /** Block b of the solution `lag` days before each query, times the
      probability, over incubation_period. */
  function LaggedCases(lp: Legacy, y0: Vector, dense: real -> Vector, time: seq<real>,
                       probability: Vector, lag: real, block: nat): (rate: seq<Vector>)
    requires ValidLegacy(lp) && SeirEvaluate.DenseFits(dense, |lp.ageGroups|) && |y0| == 4 * |lp.ageGroups|
    requires |probability| == |lp.ageGroups| && block < 4
    ensures |rate| == |time| && HasWidth(rate, |lp.ageGroups|)
  {
    SeirEvaluate.NewCases(lp.core, y0, dense, 0.0, time, probability, lag, block)
  }

  /** evaluate_solution for the dense solution `dense` of a simulation from 0
      and initial state y0. The hospital and the ICU new cases are both
      convolved with Hwindow; ICUwindow is built (so icu_duration must be a
      length) and never used. */
  function LegacyEvaluate(lp: Legacy, y0: Vector, dense: real -> Vector, time: seq<real>): (r: Result<LegacyResults>)
    requires ValidLegacy(lp) && SeirEvaluate.DenseFits(dense, |lp.ageGroups|)
    ensures r.Ok? <==> |y0| == 4 * |lp.ageGroups| &&
                       SomeAtOrAfter(time, 0.0) && SomeAtOrAfter(time, lp.core.hospitalizationLag) &&
                       SomeAtOrAfter(time, lp.core.icuLag) && SomeAtOrAfter(time, lp.core.deathLag) &&
                       lp.hospitalizationDuration.Int? && lp.hospitalizationDuration.i >= 1 &&
                       lp.icuDuration.Int? && lp.icuDuration.i >= 0
    ensures r.Ok? ==>
              var n := |lp.ageGroups|;
              var width := lp.hospitalizationDuration.i;
              |r.value.susceptible| == |time| && |r.value.exposed| == |time| &&
              |r.value.infected| == |time| && |r.value.recovered| == |time| &&
              |r.value.deaths| == |time| &&
              |r.value.hospitalized| == MaxInt(|time|, width) && |r.value.icu| == MaxInt(|time|, width) &&
              HasWidth(r.value.susceptible, n) && HasWidth(r.value.hospitalized, n) &&
              HasWidth(r.value.icu, n) && HasWidth(r.value.deaths, n)
  {
    var n := |lp.ageGroups|;
    var p := lp.core;
    LaggedSolvable(time, p.hospitalizationLag);
    LaggedSolvable(time, p.icuLag);
    LaggedSolvable(time, p.deathLag);
    if |y0| != 4 * n then Fail
    else
      var rows :- LegacySolution(dense, y0, time);
      var hospitalRows :- LegacySolution(dense, y0, Shift(time, p.hospitalizationLag));
      var width :- WindowLength(lp.hospitalizationDuration);
      var icuRows :- LegacySolution(dense, y0, Shift(time, p.icuLag));
      var icuWidth :- WindowLength(lp.icuDuration);
      var deathRows :- LegacySolution(dense, y0, Shift(time, p.deathLag));
      if width == 0 then Fail
      else
        SeirEvaluate.SolutionWidth(dense, 0.0, y0, time, n);
        var hospital := LaggedCases(lp, y0, dense, time, p.hospitalizationProbability, p.hospitalizationLag, 1);
        var icu := LaggedCases(lp, y0, dense, time, p.icuProbability, p.icuLag, 2);
        var deaths := LaggedCases(lp, y0, dense, time, p.deathProbability, p.deathLag, 1);
        Ok(LegacyResults(SeirEvaluate.Blocks(rows, 0, n), SeirEvaluate.Blocks(rows, 1, n),
                         SeirEvaluate.Blocks(rows, 2, n), SeirEvaluate.Blocks(rows, 3, n),
                         SeirEvaluate.Occupancy(hospital, n, width, 1.0), SeirEvaluate.Occupancy(icu, n, width, 1.0),
                         Running(deaths, n)))
  }

  /** What a successful evaluation holds, part by part. */
  lemma LegacyEvaluateParts(lp: Legacy, y0: Vector, dense: real -> Vector, time: seq<real>)
    requires ValidLegacy(lp) && SeirEvaluate.DenseFits(dense, |lp.ageGroups|)
    requires LegacyEvaluate(lp, y0, dense, time).Ok?
    ensures var n := |lp.ageGroups|;
            var p := lp.core;
            var r := LegacyEvaluate(lp, y0, dense, time).value;
            var rows := SolutionRows(dense, 0.0, y0, time);
            |y0| == 4 * n && HasWidth(rows, 4 * n) &&
            r.susceptible == SeirEvaluate.Blocks(rows, 0, n) && r.exposed == SeirEvaluate.Blocks(rows, 1, n) &&
            r.infected == SeirEvaluate.Blocks(rows, 2, n) && r.recovered == SeirEvaluate.Blocks(rows, 3, n) &&
            r.deaths == Running(LaggedCases(lp, y0, dense, time, p.deathProbability, p.deathLag, 1), n)
  {
    SeirEvaluate.SolutionWidth(dense, 0.0, y0, time, |lp.ageGroups|);
  }

  lemma FourBlocks(y: Vector, n: nat)
    requires |y| == 4 * n
    ensures Block(y, 0, n) + Block(y, 1, n) + Block(y, 2, n) + Block(y, 3, n) == y
  {
    assert y[..n] + y[n..2 * n] + y[2 * n..3 * n] + y[3 * n..4 * n] == y;
  }

  /** The four states are the blocks of SEIR_solution at the queries. */
  lemma LegacyEvaluateStates(lp: Legacy, y0: Vector, dense: real -> Vector, time: seq<real>, k: nat)
    requires ValidLegacy(lp) && SeirEvaluate.DenseFits(dense, |lp.ageGroups|)
    requires LegacyEvaluate(lp, y0, dense, time).Ok? && k < |time|
    ensures var n := |lp.ageGroups|;
            var r := LegacyEvaluate(lp, y0, dense, time).value;
            var row := SolutionRows(dense, 0.0, y0, time)[k];
            |row| == 4 * n &&
            r.susceptible[k] + r.exposed[k] + r.infected[k] + r.recovered[k] == row
  {
    LegacyEvaluateParts(lp, y0, dense, time);
    FourBlocks(SolutionRows(dense, 0.0, y0, time)[k], |lp.ageGroups|);
  }

  /** Both occupancies are each group's new cases summed over a window of
      hospitalization_duration days: the ICU uses the hospital window too. */
  lemma LegacyOccupancies(lp: Legacy, y0: Vector, dense: real -> Vector, time: seq<real>, k: nat, c: nat)
    requires ValidLegacy(lp) && SeirEvaluate.DenseFits(dense, |lp.ageGroups|)
    requires LegacyEvaluate(lp, y0, dense, time).Ok?
    requires k < MaxInt(|time|, lp.hospitalizationDuration.i) && c < |lp.ageGroups|
    ensures var p := lp.core;
            var r := LegacyEvaluate(lp, y0, dense, time).value;
            var width := lp.hospitalizationDuration.i;
            var hospital := LaggedCases(lp, y0, dense, time, p.hospitalizationProbability, p.hospitalizationLag, 1);
            var icu := LaggedCases(lp, y0, dense, time, p.icuProbability, p.icuLag, 2);
            r.hospitalized[k][c] == BoxcarSame(Numeric.Column(hospital, c), width)[k] &&
            r.icu[k][c] == BoxcarSame(Numeric.Column(icu, c), width)[k]
  {
  }

  /** icu_duration only has to be a valid length: any other such length gives
      the same results. */
  lemma LegacyIcuDurationUnused(lp: Legacy, y0: Vector, dense: real -> Vector, time: seq<real>, d: nat)
    requires ValidLegacy(lp) && SeirEvaluate.DenseFits(dense, |lp.ageGroups|)
    requires lp.icuDuration.Int? && lp.icuDuration.i >= 0
    ensures LegacyEvaluate(lp.(icuDuration := Int(d)), y0, dense, time) == LegacyEvaluate(lp, y0, dense, time)
  {
  }

  /** The deaths are the running total of each group's new deaths, and with
      non-negative states and death probabilities they never decrease. */
  lemma LegacyDeaths(lp: Legacy, y0: Vector, dense: real -> Vector, time: seq<real>, k: nat, c: nat)
    requires ValidLegacy(lp) && SeirEvaluate.DenseFits(dense, |lp.ageGroups|)
    requires LegacyEvaluate(lp, y0, dense, time).Ok? && k < |time| && c < |lp.ageGroups|
    ensures var p := lp.core;
            var deaths := LaggedCases(lp, y0, dense, time, p.deathProbability, p.deathLag, 1);
            LegacyEvaluate(lp, y0, dense, time).value.deaths[k][c] == Sum(Numeric.Column(deaths, c)[..k + 1])
  {
    var p := lp.core;
    var deaths := LaggedCases(lp, y0, dense, time, p.deathProbability, p.deathLag, 1);
    RunningSteps(deaths, |lp.ageGroups|, k, c);
  }

  lemma LegacyDeathsNonDecreasing(lp: Legacy, y0: Vector, dense: real -> Vector, time: seq<real>, k: nat, c: nat)
    requires ValidLegacy(lp) && SeirEvaluate.DenseFits(dense, |lp.ageGroups|)
    requires LegacyEvaluate(lp, y0, dense, time).Ok? && k + 1 < |time| && c < |lp.ageGroups|
    requires forall t, j :: 0 <= j < |dense(t)| ==> dense(t)[j] >= 0.0
    requires forall j :: 0 <= j < |y0| ==> y0[j] >= 0.0
    requires lp.core.deathProbability[c] >= 0.0 && lp.core.incubationPeriod[c] > 0.0
    ensures var r := LegacyEvaluate(lp, y0, dense, time).value;
            r.deaths[k][c] <= r.deaths[k + 1][c]
  {
    var p := lp.core;
    LegacyEvaluateParts(lp, y0, dense, time);
    var deaths := LaggedCases(lp, y0, dense, time, p.deathProbability, p.deathLag, 1);
    forall d | 0 <= d < |time|
      ensures deaths[d][c] >= 0.0
    {
      LaggedCasesNonNegative(lp, y0, dense, time, p.deathProbability, p.deathLag, 1, d, c);
    }
    RunningNonDecreasing(deaths, |lp.ageGroups|, k, c);
  }

  /** With non-negative states, probability and period the new cases are non-negative. */
  lemma LaggedCasesNonNegative(lp: Legacy, y0: Vector, dense: real -> Vector, time: seq<real>,
                               probability: Vector, lag: real, block: nat, d: nat, c: nat)
    requires ValidLegacy(lp) && SeirEvaluate.DenseFits(dense, |lp.ageGroups|) && |y0| == 4 * |lp.ageGroups|
    requires |probability| == |lp.ageGroups| && block < 4 && d < |time| && c < |lp.ageGroups|
    requires forall t, j :: 0 <= j < |dense(t)| ==> dense(t)[j] >= 0.0
    requires forall j :: 0 <= j < |y0| ==> y0[j] >= 0.0
    requires probability[c] >= 0.0 && lp.core.incubationPeriod[c] > 0.0
    ensures LaggedCases(lp, y0, dense, time, probability, lag, block)[d][c] >= 0.0
  {
    var n := |lp.ageGroups|;
    var lagged := SolutionRows(dense, 0.0, y0, Shift(time, lag));
    RowsNonNegative(dense, 0.0, y0, Shift(time, lag), d, block * n + c);
    NonNegativeRate(probability[c], Block(lagged[d], block, n)[c], lp.core.incubationPeriod[c]);
  }

  lemma NonNegativeRate(probability: real, exposed: real, period: real)
    requires probability >= 0.0 && exposed >= 0.0 && period > 0.0
    ensures probability * (exposed / period) >= 0.0
  {
  }

  // ---------------------------------------------------------------------------
  // The engine object

  /** SEIR: the constructed parameters, the optional functions, and the Y0
      and solution that set_initial_state and simulate assign. */
  class LegacyEngine {
    const params: Legacy
    /** restrictions_function: stored, and fatal to every right-hand side. */
    const restrictions: Option<real -> Modifier>
    /** imported_cases_function: the (DS, DE, DI) imports at a time. */
    const imports: Option<real -> Imports>
    /** Y0, None until set_initial_state. */
    var y0: Option<Vector>
    /** The dense solution from 0, None until simulate. */
    var solution: Option<real -> Vector>

    ghost predicate Valid()
      reads this
    {
      ValidLegacy(params) &&
      (solution.Some? ==> y0.Some? && SeirEvaluate.DenseFits(solution.value, |params.ageGroups|))
    }

    constructor (lp: Legacy, restrictions: Option<real -> Modifier>, imports: Option<real -> Imports>)
      requires ValidLegacy(lp)
      ensures Valid()
      ensures params == lp && this.restrictions == restrictions && this.imports == imports
      ensures y0.None? && solution.None?
    {
      params := lp;
      this.restrictions := restrictions;
      this.imports := imports;
      y0 := None;
      solution := None;
    }

    /** SEIR(...): fails exactly when the arguments are refused. */
    static method Create(a: LegacyArguments, restrictions: Option<real -> Modifier>, imports: Option<real -> Imports>)
      returns (r: Result<LegacyEngine>)
      ensures r.Ok? <==> LegacyConfigure(a).Ok?
      ensures r.Ok? ==> fresh(r.value) && r.value.Valid()
      ensures r.Ok? ==> r.value.params == LegacyConfigure(a).value && r.value.y0.None? && r.value.solution.None?
    {
      var lp :- LegacyConfigure(a);
      var engine := new LegacyEngine(lp, restrictions, imports);
      r := Ok(engine);
    }

    function ImportsAt(t: real): (r: Option<Imports>)
      reads this
      ensures r.Some? <==> imports.Some?
    {
      if imports.Some? then Some(imports.value(t)) else None
    }

    /** __call__(t, Y). */
    function RightHandSide(t: real, y: Vector): (r: Result<Vector>)
      requires Valid()
      reads this
      ensures r.Ok? ==> restrictions.None? && |y| == 4 * |params.ageGroups|
    {
      LegacyRightHandSide(params, restrictions.Some?, ImportsAt(t), y)
    }

    method SetInitialState(susceptible: Param, exposed: Param, infected: Param, probabilities: bool) returns (ok: bool)
      requires Valid()
      modifies this
      ensures Valid()
      ensures ok <==> LegacyInitialState(params, susceptible, exposed, infected, probabilities).Ok?
      ensures ok ==> y0 == Some(LegacyInitialState(params, susceptible, exposed, infected, probabilities).value)
      ensures !ok ==> y0 == old(y0)
      ensures solution == old(solution)
    {
      var state := LegacyInitialState(params, susceptible, exposed, infected, probabilities);
      if state.Fail? {
        return false;
      }
      y0 := Some(state.value);
      ok := true;
    }

    /** simulate: the solver starts at 0 from Y0, evaluates __call__ first at
        (0, Y0) and then at the points `later` it picks while integrating; any
        failing evaluation makes the simulation fail, so any
        restrictions_function does. `dense` is the solution it returns. */
    method Simulate(dense: real -> Vector, later: seq<(real, Vector)>) returns (ok: bool)
      requires Valid() && SeirEvaluate.DenseFits(dense, |params.ageGroups|)
      modifies this
      ensures Valid()
      ensures ok <==> old(y0).Some? && RightHandSide(0.0, old(y0).value).Ok? &&
                      forall i :: 0 <= i < |later| ==> RightHandSide(later[i].0, later[i].1).Ok?
      ensures ok ==> restrictions.None? && solution == Some(dense)
      ensures !ok ==> solution == old(solution)
      ensures y0 == old(y0)
    {
      if y0.None? {
        return false;
      }
      var first := RightHandSide(0.0, y0.value);
      if first.Fail? {
        return false;
      }
      var k := 0;
      while k < |later|
        invariant 0 <= k <= |later|
        invariant forall i :: 0 <= i < k ==> RightHandSide(later[i].0, later[i].1).Ok?
      {
        if RightHandSide(later[k].0, later[k].1).Fail? {
          return false;
        }
        k := k + 1;
      }
      solution := Some(dense);
      ok := true;
    }

    /** evaluate_solution: needs a solution, and reads the Y0 current at the
        time of the call. */
    method Evaluate(time: seq<real>) returns (r: Result<LegacyResults>)
      requires Valid()
      ensures solution.None? ==> r.Fail?
      ensures solution.Some? ==> r == LegacyEvaluate(params, y0.value, solution.value, time)
    {
      if solution.None? {
        return Fail;
      }
      r := LegacyEvaluate(params, y0.value, solution.value, time);
    }
  }
}
