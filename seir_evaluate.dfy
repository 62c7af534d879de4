/** evaluate_solution: the table of results at a list of query times. Each row
    holds the time, then for each of eight quantities its value in every
    compartment followed by the total over compartments. Cells without enough
    history are NaN, written None. */
module SeirEvaluate {
  import opened Wrappers
  import opened Numeric
  import opened SeirModel

  /** A table cell: None is NaN. */
  type Cell = Option<real>

  /** The dense solution of the ODE solver returns a full state at every time. */
  ghost predicate DenseFits(dense: real -> Vector, n: nat) {
    forall t :: |dense(t)| == 4 * n
  }

  lemma DenseWidth(dense: real -> Vector, n: nat, t: real)
    requires DenseFits(dense, n)
    ensures |dense(t)| == 4 * n
  {
  }

  lemma SolutionWidth(dense: real -> Vector, t0: real, y0: Vector, time: seq<real>, n: nat)
    requires DenseFits(dense, n) && |y0| == 4 * n
    ensures HasWidth(SolutionRows(dense, t0, y0, time), 4 * n)
  {
    forall k | 0 <= k < |time|
      ensures |SolutionRows(dense, t0, y0, time)[k]| == 4 * n
    {
      SolutionRowWidth(dense, t0, y0, time, n, k);
    }
  }

  lemma SolutionRowWidth(dense: real -> Vector, t0: real, y0: Vector, time: seq<real>, n: nat, k: nat)
    requires DenseFits(dense, n) && |y0| == 4 * n && k < |time|
    ensures |SolutionRows(dense, t0, y0, time)[k]| == 4 * n
  {
    var rows := SolutionRows(dense, t0, y0, time);
    var after := AtOrAfter(time, t0);
    if |after| == |time| {
      assert rows[k] == dense(time[k]);
      DenseWidth(dense, n, time[k]);
    } else if |after| > 0 && k >= |time| - |after| {
      var j := k - (|time| - |after|);
      assert rows[k] == dense(after[j]);
      DenseWidth(dense, n, after[j]);
    } else {
      assert rows[k] == y0;
    }
  }

  /** np.split(rows, 4, axis=-1)[b]: block b of every row. */
  function Blocks(rows: seq<Vector>, b: nat, n: nat): (r: seq<Vector>)
    requires b < 4 && HasWidth(rows, 4 * n)
    ensures |r| == |rows| && HasWidth(r, n)
    ensures forall k :: 0 <= k < |rows| ==> r[k] == Block(rows[k], b, n)
  {
    assert (b + 1) * n <= 4 * n;
    seq(|rows|, k requires 0 <= k < |rows| => Block(rows[k], b, n))
  }

  /** Each entry as a present cell. */
  function Somes(v: Vector): (r: seq<Cell>)
    ensures |r| == |v| && forall k :: 0 <= k < |v| ==> r[k] == Some(v[k])
  {
    seq(|v|, k requires 0 <= k < |v| => Some(v[k]))
  }

  // ---------------------------------------------------------------------------
  // Cumulative infections

  /** np.where(time >= t0) when `after`, np.where(time < t0) otherwise: the
      matching indices in ascending order. */
  function Where(time: seq<real>, t0: real, after: bool): (ix: seq<nat>)
    ensures |ix| <= |time|
    ensures forall r :: 0 <= r < |ix| ==> ix[r] < |time| && (time[ix[r]] >= t0 <==> after)
    ensures forall r, s :: 0 <= r < s < |ix| ==> ix[r] < ix[s]
  {
    if |time| == 0 then []
    else
      var init := Where(time[..|time| - 1], t0, after);
      if (time[|time| - 1] >= t0) == after then init + [|time| - 1] else init
  }

  /** np.where lists every query on its side of t0. */
  lemma {:induction false} WhereComplete(time: seq<real>, t0: real, after: bool)
    ensures forall k :: 0 <= k < |time| && (time[k] >= t0 <==> after) ==> k in Where(time, t0, after)
  {
    if |time| > 0 {
      WhereComplete(time[..|time| - 1], t0, after);
    }
  }

  /** Every query is on exactly one side of t0. */
  lemma {:induction false} WhereSizes(time: seq<real>, t0: real)
    ensures |Where(time, t0, true)| + |Where(time, t0, false)| == |time|
  {
    if |time| > 0 {
      WhereSizes(time[..|time| - 1], t0);
    }
  }

  /** v / incubation_period, entry by entry. */
  function PerIncubation(p: Parameters, v: Vector): (r: Vector)
    requires ValidParameters(p) && |v| == |p.compartments|
    ensures |r| == |v| && forall c :: 0 <= c < |v| ==> r[c] == v[c] / p.incubationPeriod[c]
  {
    seq(|v|, c requires 0 <= c < |v| => v[c] / p.incubationPeriod[c])
  }

  /** Idiff_pos: one trapezoid of E / incubation_period from time 0 (not t0)
      to the first query at or after t0, plus the running trapezoid integral
      over those queries. */
  function PostStartIntegrals(p: Parameters, e0: Vector, e: seq<Vector>, time: seq<real>, pos: seq<nat>): (d: seq<Vector>)
    requires ValidParameters(p) && |e0| == |p.compartments|
    requires |e| == |time| && HasWidth(e, |p.compartments|)
    requires forall r :: 0 <= r < |pos| ==> pos[r] < |time|
    ensures |d| == |pos| && HasWidth(d, |p.compartments|)
  {
    var n := |p.compartments|;
    if |pos| == 0 then []
    else
      var first := pos[0];
      var start := seq(n, c requires 0 <= c < n => Trapezoid(0.0, time[first], PerIncubation(p, e0)[c], PerIncubation(p, e[first])[c]));
      var times := seq(|pos|, r requires 0 <= r < |pos| => time[pos[r]]);
      var integrals := seq(n, c requires 0 <= c < n =>
        CumTrapz(seq(|pos|, r requires 0 <= r < |pos| => PerIncubation(p, e[pos[r]])[c]), times));
      seq(|pos|, r requires 0 <= r < |pos| => seq(n, c requires 0 <= c < n => integrals[c][r] + start[c]))
  }

  /** The first integral is the trapezoid from time 0 to the first query. */
  lemma PostStartFirst(p: Parameters, e0: Vector, e: seq<Vector>, time: seq<real>, pos: seq<nat>, c: nat)
    requires ValidParameters(p) && |e0| == |p.compartments|
    requires |e| == |time| && HasWidth(e, |p.compartments|)
    requires forall r :: 0 <= r < |pos| ==> pos[r] < |time|
    requires |pos| > 0 && c < |p.compartments|
    ensures PostStartIntegrals(p, e0, e, time, pos)[0][c] ==
            Trapezoid(0.0, time[pos[0]], e0[c] / p.incubationPeriod[c], e[pos[0]][c] / p.incubationPeriod[c])
  {
    var times := seq(|pos|, r requires 0 <= r < |pos| => time[pos[r]]);
    var rates := seq(|pos|, r requires 0 <= r < |pos| => PerIncubation(p, e[pos[r]])[c]);
    CumTrapzSteps(rates, times, 0);
  }

  /** Each later integral adds the trapezoid from the query before. */
  lemma PostStartStep(p: Parameters, e0: Vector, e: seq<Vector>, time: seq<real>, pos: seq<nat>, r: nat, c: nat)
    requires ValidParameters(p) && |e0| == |p.compartments|
    requires |e| == |time| && HasWidth(e, |p.compartments|)
    requires forall r :: 0 <= r < |pos| ==> pos[r] < |time|
    requires r + 1 < |pos| && c < |p.compartments|
    ensures PostStartIntegrals(p, e0, e, time, pos)[r + 1][c] == PostStartIntegrals(p, e0, e, time, pos)[r][c] +
              Trapezoid(time[pos[r]], time[pos[r + 1]], e[pos[r]][c] / p.incubationPeriod[c], e[pos[r + 1]][c] / p.incubationPeriod[c])
  {
    var times := seq(|pos|, k requires 0 <= k < |pos| => time[pos[k]]);
    var rates := seq(|pos|, k requires 0 <= k < |pos| => PerIncubation(p, e[pos[k]])[c]);
    CumTrapzSteps(rates, times, r);
  }

  /** Icumulative: I0 plus np.concatenate((Idiff_neg, Idiff_pos)). The
      queries before t0 take the first rows, each the difference I - I0 of
      its row; the queries from t0 on take the rest, each its integral. */
  function CumulativeInfected(p: Parameters, y0: Vector, rows: seq<Vector>, time: seq<real>, t0: real): (icum: seq<Vector>)
    requires ValidParameters(p) && |y0| == 4 * |p.compartments|
    requires |rows| == |time| && HasWidth(rows, 4 * |p.compartments|)
    ensures |icum| == |time| && HasWidth(icum, |p.compartments|)
  {
    var n := |p.compartments|;
    WhereSizes(time, t0);
    Cumulate(Block(y0, 2, n), rows, Where(time, t0, false),
             PostStartIntegrals(p, Block(y0, 1, n), Blocks(rows, 1, n), time, Where(time, t0, true)), n)
  }

  /** I0 + (I - I0) at the rows listed in neg, then I0 plus each integral of
      post: the rows before the start are I itself. */
  function Cumulate(i0: Vector, rows: seq<Vector>, neg: seq<nat>, post: seq<Vector>, n: nat): (icum: seq<Vector>)
    requires |i0| == n && HasWidth(post, n)
    requires forall r :: 0 <= r < |neg| ==> neg[r] < |rows| && |rows[neg[r]]| == 4 * n
    ensures |icum| == |neg| + |post| && HasWidth(icum, n)
    ensures forall k, c :: 0 <= k < |neg| && 0 <= c < n ==> icum[k][c] == rows[neg[k]][2 * n + c]
    ensures forall k, c :: |neg| <= k < |icum| && 0 <= c < n ==> icum[k][c] == i0[c] + post[k - |neg|][c]
  {
    seq(|neg| + |post|, k requires 0 <= k < |neg| + |post| => seq(n, c requires 0 <= c < n =>
      i0[c] + (if k < |neg| then rows[neg[k]][2 * n + c] - i0[c] else post[k - |neg|][c])))
  }

  /** A query before t0 gets I0 + (I - I0), exactly I at that query; those
      queries take the first rows, in query order. */
  lemma CumulativeBeforeQueries(p: Parameters, y0: Vector, rows: seq<Vector>, time: seq<real>, t0: real, r: nat, c: nat)
    requires ValidParameters(p) && |y0| == 4 * |p.compartments|
    requires |rows| == |time| && HasWidth(rows, 4 * |p.compartments|)
    requires r < |Where(time, t0, false)| && c < |p.compartments|
    ensures CumulativeInfected(p, y0, rows, time, t0)[r][c] == rows[Where(time, t0, false)[r]][2 * |p.compartments| + c]
  {
  }

  /** The queries from t0 on take the remaining rows, each I0 plus its
      integral. */
  lemma CumulativeAfterQueries(p: Parameters, y0: Vector, rows: seq<Vector>, time: seq<real>, t0: real, k: nat, c: nat)
    requires ValidParameters(p) && |y0| == 4 * |p.compartments|
    requires |rows| == |time| && HasWidth(rows, 4 * |p.compartments|)
    requires |Where(time, t0, false)| <= k < |time| && c < |p.compartments|
    ensures k - |Where(time, t0, false)| < |Where(time, t0, true)|
    ensures CumulativeInfected(p, y0, rows, time, t0)[k][c] ==
              y0[2 * |p.compartments| + c] +
              PostStartIntegrals(p, Block(y0, 1, |p.compartments|), Blocks(rows, 1, |p.compartments|), time, Where(time, t0, true))[k - |Where(time, t0, false)|][c]
  {
    WhereSizes(time, t0);
    var n := |p.compartments|;
    assert Block(y0, 2, n)[c] == y0[2 * n + c];
  }

  /** With the queries in increasing order, those before t0 come first and
      their cumulative infections are those of the initial state. */
  lemma CumulativeBeforeStart(p: Parameters, y0: Vector, dense: real -> Vector, t0: real, time: seq<real>, k: nat, c: nat)
    requires ValidParameters(p) && |y0| == 4 * |p.compartments| && DenseFits(dense, |p.compartments|)
    requires Sorted(time) && k < |time| && time[k] < t0 && c < |p.compartments|
    ensures var rows := SolutionRows(dense, t0, y0, time);
            HasWidth(rows, 4 * |p.compartments|) &&
            CumulativeInfected(p, y0, rows, time, t0)[k][c] == y0[2 * |p.compartments| + c]
  {
    var n := |p.compartments|;
    SolutionWidth(dense, t0, y0, time, n);
    var neg := Where(time, t0, false);
    WhereFirst(time, t0, k);
    FlatBeforeStart(dense, t0, y0, time, k);
    CumulativeBeforeQueries(p, y0, SolutionRows(dense, t0, y0, time), time, t0, k, c);
  }

  /** In increasing order the first queries are exactly those before t0. */
  lemma {:induction false} WhereFirst(time: seq<real>, t0: real, k: nat)
    requires Sorted(time) && k < |time| && time[k] < t0
    ensures k < |Where(time, t0, false)| && Where(time, t0, false)[k] == k
  {
    var m := |time| - 1;
    if k == m {
      forall j | 0 <= j < |time|
        ensures time[j] < t0
      {
        assert time[j] <= time[k];
      }
      WhereAllBefore(time, t0);
    } else {
      var init := time[..m];
      assert init[k] == time[k];
      WhereFirst(init, t0, k);
      var w := Where(init, t0, false);
      assert Where(time, t0, false) == if time[m] >= t0 then w else w + [m];
    }
  }

  /** When every query is before t0, np.where(time < t0) lists them all. */
  lemma {:induction false} WhereAllBefore(time: seq<real>, t0: real)
    requires forall j :: 0 <= j < |time| ==> time[j] < t0
    ensures |Where(time, t0, false)| == |time|
    ensures forall j :: 0 <= j < |time| ==> Where(time, t0, false)[j] == j
  {
    if |time| > 0 {
      WhereAllBefore(time[..|time| - 1], t0);
    }
  }

  // ---------------------------------------------------------------------------
  // Hospital and ICU occupancy

  /** np.arange(min(time) - duration, time[0] + dt / 2, dt): the grid points
      added before the queries. */
  function GridBefore(time: seq<real>, dt: real, duration: real): Vector
    requires |time| >= 1 && dt != 0.0
  {
    Arange(Min(time) - duration, time[0] + dt / 2.0, dt)
  }

  /** np.arange(time[-1], max(time) + duration + dt / 2, dt): the grid points
      added after the queries. */
  function GridAfter(time: seq<real>, dt: real, duration: real): Vector
    requires |time| >= 1 && dt != 0.0
  {
    Arange(time[|time| - 1], Max(time) + duration + dt / 2.0, dt)
  }

  /** The queries extended by `duration` on either side. */
  function Grid(time: seq<real>, dt: real, duration: real): (grid: Vector)
    requires |time| >= 1 && dt != 0.0
    ensures |grid| == |GridBefore(time, dt, duration)| + |time| + |GridAfter(time, dt, duration)|
    ensures forall k :: 0 <= k < |time| ==> grid[|GridBefore(time, dt, duration)| + k] == time[k]
  {
    GridBefore(time, dt, duration) + time + GridAfter(time, dt, duration)
  }

  /** int(round(duration / dt)): the number of ones in the window. */
  function Window(duration: real, dt: real): int
    requires dt != 0.0
  {
    RoundHalfEven(duration / dt)
  }

  /** The new cases per day at each grid time: probability * block / incubation_period
      of the solution `lag` days earlier. */
  function NewCases(p: Parameters, y0: Vector, dense: real -> Vector, t0: real, grid: Vector,
                    probability: Vector, lag: real, block: nat): (rate: seq<Vector>)
    requires ValidParameters(p) && DenseFits(dense, |p.compartments|) && |y0| == 4 * |p.compartments|
    requires |probability| == |p.compartments| && block < 4
    ensures |rate| == |grid| && HasWidth(rate, |p.compartments|)
  {
    var n := |p.compartments|;
    SolutionWidth(dense, t0, y0, Shift(grid, lag), n);
    IncubationRates(SolutionRows(dense, t0, y0, Shift(grid, lag)), probability, p.incubationPeriod, block, n)
  }

  /** Block b of each state over the incubation period, times the probability. */
  function IncubationRates(states: seq<Vector>, probability: Vector, period: Vector, block: nat, n: nat): (rate: seq<Vector>)
    requires HasWidth(states, 4 * n) && |probability| == n && |period| == n && NonZero(period) && block < 4
    ensures |rate| == |states| && HasWidth(rate, n)
    ensures forall k, c :: 0 <= k < |states| && 0 <= c < n ==>
              rate[k][c] == probability[c] * (Block(states[k], block, n)[c] / period[c])
  {
    assert (block + 1) * n <= 4 * n;
    seq(|states|, k requires 0 <= k < |states| => seq(n, c requires 0 <= c < n =>
      probability[c] * (Block(states[k], block, n)[c] / period[c])))
  }

  /** On an increasing grid the new cases at a grid time come from the
      initial state when the lagged time is before t0, else from the dense
      solution at the lagged time. */
  lemma NewCasesSorted(p: Parameters, y0: Vector, dense: real -> Vector, t0: real, grid: Vector,
                       probability: Vector, lag: real, block: nat, k: nat, c: nat)
    requires ValidParameters(p) && DenseFits(dense, |p.compartments|) && |y0| == 4 * |p.compartments|
    requires |probability| == |p.compartments| && block < 4
    requires Sorted(grid) && k < |grid| && c < |p.compartments|
    ensures var n := |p.compartments|;
            var state := if grid[k] - lag < t0 then y0 else dense(grid[k] - lag);
            |state| == 4 * n &&
            NewCases(p, y0, dense, t0, grid, probability, lag, block)[k][c] ==
              probability[c] * (Block(state, block, n)[c] / p.incubationPeriod[c])
  {
    var n := |p.compartments|;
    var shifted := Shift(grid, lag);
    ShiftSorted(grid, lag);
    FlatBeforeStart(dense, t0, y0, shifted, k);
    var lagged := SolutionRows(dense, t0, y0, shifted);
    assert shifted[k] == grid[k] - lag;
    assert NewCases(p, y0, dense, t0, grid, probability, lag, block)[k][c] ==
           probability[c] * (Block(lagged[k], block, n)[c] / p.incubationPeriod[c]);
  }

  /** Shifting an increasing grid keeps it increasing. */
  lemma ShiftSorted(grid: Vector, lag: real)
    requires Sorted(grid)
    ensures Sorted(Shift(grid, lag))
  {
    var shifted := Shift(grid, lag);
    forall i, j | 0 <= i <= j < |shifted|
      ensures shifted[i] <= shifted[j]
    {
      assert grid[i] <= grid[j];
    }
  }

  /** Each compartment's rate convolved with `width` ones in 'same' mode, times dt. */
  function Occupancy(rate: seq<Vector>, n: nat, width: nat, dt: real): (occ: seq<Vector>)
    requires |rate| >= 1 && width >= 1 && HasWidth(rate, n)
    ensures |occ| == MaxInt(|rate|, width) && HasWidth(occ, n)
  {
    var active := seq(n, c requires 0 <= c < n => Scale(BoxcarSame(Numeric.Column(rate, c), width), dt));
    seq(MaxInt(|rate|, width), k requires 0 <= k < MaxInt(|rate|, width) => seq(n, c requires 0 <= c < n => active[c][k]))
  }

  /** A window of a single step holds just that step's new cases. */
  lemma OccupancyOneStep(rate: seq<Vector>, n: nat, dt: real, k: nat, c: nat)
    requires |rate| >= 1 && HasWidth(rate, n) && k < |rate| && c < n
    ensures Occupancy(rate, n, 1, dt)[k][c] == rate[k][c] * dt
  {
    BoxcarIdentity(Numeric.Column(rate, c));
  }

  /** The occupancy of one kind of bed over the extended grid; fails when
      the window holds fewer than one step. */
  function GridOccupancy(p: Parameters, y0: Vector, dense: real -> Vector, t0: real, time: seq<real>, dt: real,
                         probability: Vector, duration: real, lag: real, block: nat): (r: Result<seq<Vector>>)
    requires ValidParameters(p) && DenseFits(dense, |p.compartments|) && |y0| == 4 * |p.compartments|
    requires |time| >= 1 && dt != 0.0 && |probability| == |p.compartments| && block < 4
    ensures r.Ok? <==> Window(duration, dt) >= 1
    ensures r.Ok? ==> |r.value| == MaxInt(|Grid(time, dt, duration)|, Window(duration, dt))
    ensures r.Ok? ==> HasWidth(r.value, |p.compartments|)
  {
    if Window(duration, dt) < 1 then Fail
    else Ok(Occupancy(NewCases(p, y0, dense, t0, Grid(time, dt, duration), probability, lag, block),
                      |p.compartments|, Window(duration, dt), dt))
  }

  /** occ[before:before + count] with, under only_real_results, the rows at
      grid times before the cutoff made NaN; masking fails when the
      occupancy is longer than the grid. */
  function AtQueries(occ: seq<Vector>, grid: Vector, before: nat, count: nat, cutoff: real, onlyReal: bool, n: nat): (r: Result<seq<seq<Cell>>>)
    requires before + count <= |grid| <= |occ| && HasWidth(occ, n)
    ensures r.Ok? <==> !onlyReal || |occ| == |grid|
    ensures r.Ok? ==> |r.value| == count && HasWidth(r.value, n)
    ensures r.Ok? ==> forall k, c :: 0 <= k < count && 0 <= c < n ==>
              r.value[k][c] == if onlyReal && grid[before + k] < cutoff then None else Some(occ[before + k][c])
  {
    if onlyReal && |occ| != |grid| then Fail
    else Ok(seq(count, k requires 0 <= k < count => seq(n, c requires 0 <= c < n =>
              if onlyReal && grid[before + k] < cutoff then None else Some(occ[before + k][c]))))
  }

  /** H_active_cases (block 1, E) and ICU_active_cases (block 2, I): the
      occupancy at the queries, NaN under only_real_results exactly before
      t0 + lag + duration. */
  function ActiveCases(p: Parameters, y0: Vector, dense: real -> Vector, t0: real, time: seq<real>, dt: real,
                       probability: Vector, duration: real, lag: real, block: nat, onlyReal: bool): (r: Result<seq<seq<Cell>>>)
    requires ValidParameters(p) && DenseFits(dense, |p.compartments|) && |y0| == 4 * |p.compartments|
    requires |time| >= 1 && dt != 0.0 && |probability| == |p.compartments| && block < 4
    ensures r.Ok? <==> Window(duration, dt) >= 1 && (onlyReal ==> Window(duration, dt) <= |Grid(time, dt, duration)|)
    ensures r.Ok? ==> |r.value| == |time| && HasWidth(r.value, |p.compartments|)
  {
    var occ :- GridOccupancy(p, y0, dense, t0, time, dt, probability, duration, lag, block);
    AtQueries(occ, Grid(time, dt, duration), |GridBefore(time, dt, duration)|, |time|, t0 + lag + duration, onlyReal, |p.compartments|)
  }

  /** On a grid that holds the queries from position `before` on, under
      only_real_results a cell is NaN exactly when its query is before the
      cutoff, and a present cell is the one computed without
      only_real_results. */
  lemma QueriesMask(occ: seq<Vector>, grid: Vector, before: nat, time: seq<real>, cutoff: real, n: nat, k: nat, c: nat)
    requires before + |time| <= |grid| <= |occ| && HasWidth(occ, n)
    requires forall j :: 0 <= j < |time| ==> grid[before + j] == time[j]
    requires k < |time| && c < n
    requires AtQueries(occ, grid, before, |time|, cutoff, true, n).Ok?
    ensures var masked := AtQueries(occ, grid, before, |time|, cutoff, true, n).value;
            var plain := AtQueries(occ, grid, before, |time|, cutoff, false, n).value;
            (masked[k][c].None? <==> time[k] < cutoff) && (masked[k][c].Some? ==> masked[k][c] == plain[k][c])
  {
    assert grid[before + k] == time[k];
  }

  /** The running trapezoid integral over the queries of
      death_probability * E / incubation_period taken death_lag days earlier. */
  function DeathIntegral(p: Parameters, y0: Vector, dense: real -> Vector, t0: real, time: seq<real>): (d: seq<Vector>)
    requires ValidParameters(p) && DenseFits(dense, |p.compartments|) && |y0| == 4 * |p.compartments|
    ensures |d| == |time| && HasWidth(d, |p.compartments|)
  {
    var n := |p.compartments|;
    var rate := NewCases(p, y0, dense, t0, time, p.deathProbability, p.deathLag, 1);
    var integrals := seq(n, c requires 0 <= c < n => CumTrapz(Numeric.Column(rate, c), time));
    seq(|time|, k requires 0 <= k < |time| => seq(n, c requires 0 <= c < n => integrals[c][k]))
  }

  /** The integral starts at 0 and grows by one trapezoid of the death rate per query. */
  lemma DeathIntegralSteps(p: Parameters, y0: Vector, dense: real -> Vector, t0: real, time: seq<real>, k: nat, c: nat)
    requires ValidParameters(p) && DenseFits(dense, |p.compartments|) && |y0| == 4 * |p.compartments|
    requires k < |time| && c < |p.compartments|
    ensures DeathIntegral(p, y0, dense, t0, time)[0][c] == 0.0
    ensures var d := DeathIntegral(p, y0, dense, t0, time);
            var rate := NewCases(p, y0, dense, t0, time, p.deathProbability, p.deathLag, 1);
            k + 1 < |time| ==> d[k + 1][c] == d[k][c] + Trapezoid(time[k], time[k + 1], rate[k][c], rate[k + 1][c])
  {
    var rate := NewCases(p, y0, dense, t0, time, p.deathProbability, p.deathLag, 1);
    CumTrapzSteps(Numeric.Column(rate, c), time, k);
  }

  /** deaths -= deaths[closest]: every row minus one of them. */
  function SubtractRow(rows: seq<Vector>, closest: nat, n: nat): (r: seq<Vector>)
    requires closest < |rows| && HasWidth(rows, n)
    ensures |r| == |rows| && HasWidth(r, n)
    ensures forall k, c :: 0 <= k < |rows| && 0 <= c < n ==> r[k][c] == rows[k][c] - rows[closest][c]
  {
    seq(|rows|, k requires 0 <= k < |rows| => seq(n, c requires 0 <= c < n => rows[k][c] - rows[closest][c]))
  }

  /** deaths from their running integral: under only_real_results counted
      from the query nearest start = t0 + death_lag and NaN before start
      (no duration term). */
  function Deaths(integral: seq<Vector>, time: seq<real>, start: real, onlyReal: bool, n: nat): (d: seq<seq<Cell>>)
    requires |integral| == |time| >= 1 && HasWidth(integral, n)
    ensures |d| == |time| && HasWidth(d, n)
    ensures !onlyReal ==> forall k, c :: 0 <= k < |time| && 0 <= c < n ==> d[k][c] == Some(integral[k][c])
    ensures onlyReal ==> forall k, c :: 0 <= k < |time| && 0 <= c < n ==> (d[k][c].None? <==> time[k] < start)
    ensures onlyReal ==> forall k, c :: 0 <= k < |time| && 0 <= c < n && d[k][c].Some? ==>
              d[k][c].value == integral[k][c] - integral[ArgMinDistance(time, start)][c]
  {
    if !onlyReal then seq(|time|, k requires 0 <= k < |time| => Somes(integral[k]))
    else
      var shifted := SubtractRow(integral, ArgMinDistance(time, start), n);
      seq(|time|, k requires 0 <= k < |time| =>
        if time[k] < start then seq(n, _ => None) else Somes(shifted[k]))
  }

  /** Under only_real_results the deaths are 0 at the query nearest start
      when that query is not before it. */
  lemma DeathsZeroAtStart(integral: seq<Vector>, time: seq<real>, start: real, n: nat, c: nat)
    requires |integral| == |time| >= 1 && HasWidth(integral, n) && c < n
    requires time[ArgMinDistance(time, start)] >= start
    ensures Deaths(integral, time, start, true, n)[ArgMinDistance(time, start)][c] == Some(0.0)
  {
  }

  // ---------------------------------------------------------------------------
  // The table

  /** A column header: the time, one quantity in one compartment, or a
      quantity's total. */
  datatype Heading = Time | Of(quantity: string, compartment: string) | Total(quantity: string)

  const Quantities: seq<string> := ["susceptible", "exposed", "infected (active)", "infected (total)",
                                    "removed", "hospitalized (active)", "in ICU", "deaths"]

  /** [first] + groups[0] + [totals[0]] + groups[1] + [totals[1]] + ... */
  function Layout<T>(first: T, groups: seq<seq<T>>, totals: seq<T>): (r: seq<T>)
    requires |groups| == |totals|
  {
    if |groups| == 0 then [first]
    else Layout(first, groups[..|groups| - 1], totals[..|totals| - 1]) + groups[|groups| - 1] + [totals[|totals| - 1]]
  }

  lemma {:induction false} LayoutLength<T>(first: T, groups: seq<seq<T>>, totals: seq<T>, n: nat)
    requires |groups| == |totals| && HasWidth(groups, n)
    ensures |Layout(first, groups, totals)| == 1 + |groups| * (n + 1)
  {
    if |groups| > 0 {
      var m := |groups| - 1;
      LayoutLength(first, groups[..m], totals[..m], n);
      assert |groups| * (n + 1) == m * (n + 1) + (n + 1);
    }
  }

  /** Position 1 + q * (n + 1) + c holds value c of group q, and c = n its total. */
  lemma {:induction false} LayoutAt<T>(first: T, groups: seq<seq<T>>, totals: seq<T>, n: nat, q: nat, c: nat)
    requires |groups| == |totals| && HasWidth(groups, n) && q < |groups| && c <= n
    ensures 1 + q * (n + 1) + c < |Layout(first, groups, totals)|
    ensures Layout(first, groups, totals)[1 + q * (n + 1) + c] == if c < n then groups[q][c] else totals[q]
  {
    var m := |groups| - 1;
    LayoutLength(first, groups[..m], totals[..m], n);
    LayoutLength(first, groups, totals, n);
    if q < m {
      LayoutAt(first, groups[..m], totals[..m], n, q, c);
    } else {
      assert 1 + q * (n + 1) + c == |Layout(first, groups[..m], totals[..m])| + c;
    }
  }

  lemma {:induction false} LayoutFirst<T>(first: T, groups: seq<seq<T>>, totals: seq<T>)
    requires |groups| == |totals|
    ensures |Layout(first, groups, totals)| > 0 && Layout(first, groups, totals)[0] == first
  {
    if |groups| > 0 {
      LayoutFirst(first, groups[..|groups| - 1], totals[..|totals| - 1]);
    }
  }

  /** The column names: 'time', then per quantity the (quantity, compartment)
      pairs and the quantity itself. */
  function Header(compartments: seq<string>): (h: seq<Heading>)
  {
    Layout(Time, seq(|Quantities|, q requires 0 <= q < |Quantities| =>
                   seq(|compartments|, c requires 0 <= c < |compartments| => Of(Quantities[q], compartments[c]))),
           seq(|Quantities|, q requires 0 <= q < |Quantities| => Total(Quantities[q])))
  }

  /** Column 1 + q * (n + 1) + c names quantity q in compartment c, and
      column 1 + q * (n + 1) + n its total. */
  lemma HeaderAt(compartments: seq<string>, q: nat, c: nat)
    requires q < |Quantities| && c <= |compartments|
    ensures var n := |compartments|;
            var h := Header(compartments);
            |h| == 1 + 8 * (n + 1) && h[0] == Time &&
            h[1 + q * (n + 1) + c] == if c < n then Of(Quantities[q], compartments[c]) else Total(Quantities[q])
  {
    var n := |compartments|;
    var groups := seq(|Quantities|, q requires 0 <= q < |Quantities| =>
                    seq(n, c requires 0 <= c < n => Of(Quantities[q], compartments[c])));
    var totals := seq(|Quantities|, q requires 0 <= q < |Quantities| => Total(Quantities[q]));
    LayoutLength(Time, groups, totals, n);
    LayoutFirst(Time, groups, totals);
    LayoutAt(Time, groups, totals, n, q, c);
  }

  /** np.sum over compartments: NaN as soon as one cell is NaN. */
  function TotalOf(cells: seq<Cell>): (r: Cell)
    ensures r.Some? <==> forall k :: 0 <= k < |cells| ==> cells[k].Some?
  {
    if |cells| == 0 then Some(0.0)
    else
      var init := TotalOf(cells[..|cells| - 1]);
      var last := cells[|cells| - 1];
      if init.Some? && last.Some? then Some(init.value + last.value) else None
  }

  /** The total of present values is their sum. */
  lemma {:induction false} TotalOfSomes(v: Vector)
    ensures TotalOf(Somes(v)) == Some(Sum(v))
  {
    if |v| > 0 {
      assert Somes(v)[..|v| - 1] == Somes(v[..|v| - 1]);
      TotalOfSomes(v[..|v| - 1]);
    }
  }

  /** The eight quantities of one row, in column order. */
  function Quantities8(state: Vector, icum: Vector, hospital: seq<Cell>, icu: seq<Cell>, deaths: seq<Cell>, n: nat): (g: seq<seq<Cell>>)
    requires |state| == 4 * n && |icum| == n && |hospital| == n && |icu| == n && |deaths| == n
    ensures |g| == |Quantities| && HasWidth(g, n)
  {
    [Somes(Block(state, 0, n)), Somes(Block(state, 1, n)), Somes(Block(state, 2, n)), Somes(icum),
     Somes(Block(state, 3, n)), hospital, icu, deaths]
  }

  /** One row of the table: the time, then each quantity and its total. */
  function Row(t: real, groups: seq<seq<Cell>>): seq<Cell> {
    Layout(Some(t), groups, seq(|groups|, q requires 0 <= q < |groups| => TotalOf(groups[q])))
  }

  /** The rows of the table from the state at each query and the derived
      quantities. */
  function Table(time: seq<real>, states: seq<Vector>, icum: seq<Vector>, hospital: seq<seq<Cell>>,
                 icu: seq<seq<Cell>>, deaths: seq<seq<Cell>>, n: nat): (rows: seq<seq<Cell>>)
    requires |states| == |icum| == |hospital| == |icu| == |deaths| == |time|
    requires HasWidth(states, 4 * n) && HasWidth(icum, n) && HasWidth(hospital, n) && HasWidth(icu, n) && HasWidth(deaths, n)
    ensures |rows| == |time|
  {
    seq(|time|, k requires 0 <= k < |time| => Row(time[k], Quantities8(states[k], icum[k], hospital[k], icu[k], deaths[k], n)))
  }

  /** Each row lines up with the header: the time first, then at
      1 + q * (n + 1) + c quantity q in compartment c and at
      1 + q * (n + 1) + n its total over the compartments. */
  lemma TableAt(time: seq<real>, states: seq<Vector>, icum: seq<Vector>, hospital: seq<seq<Cell>>,
                icu: seq<seq<Cell>>, deaths: seq<seq<Cell>>, n: nat, k: nat, q: nat, c: nat)
    requires |states| == |icum| == |hospital| == |icu| == |deaths| == |time|
    requires HasWidth(states, 4 * n) && HasWidth(icum, n) && HasWidth(hospital, n) && HasWidth(icu, n) && HasWidth(deaths, n)
    requires k < |time| && q < |Quantities| && c <= n
    ensures var row := Table(time, states, icum, hospital, icu, deaths, n)[k];
            var g := Quantities8(states[k], icum[k], hospital[k], icu[k], deaths[k], n);
            |row| == 1 + 8 * (n + 1) && row[0] == Some(time[k]) && 1 + q * (n + 1) + c < |row| &&
            row[1 + q * (n + 1) + c] == if c < n then g[q][c] else TotalOf(g[q])
  {
    var g := Quantities8(states[k], icum[k], hospital[k], icu[k], deaths[k], n);
    var totals := seq(|g|, q requires 0 <= q < |g| => TotalOf(g[q]));
    LayoutLength(Some(time[k]), g, totals, n);
    LayoutFirst(Some(time[k]), g, totals);
    LayoutAt(Some(time[k]), g, totals, n, q, c);
  }

  /** The state columns hold the solution, and their totals its block sums:
      the total population of a compartment group when q = 0..3 are summed. */
  lemma TableStateTotal(time: seq<real>, states: seq<Vector>, icum: seq<Vector>, hospital: seq<seq<Cell>>,
                        icu: seq<seq<Cell>>, deaths: seq<seq<Cell>>, n: nat, k: nat, b: nat)
    requires |states| == |icum| == |hospital| == |icu| == |deaths| == |time|
    requires HasWidth(states, 4 * n) && HasWidth(icum, n) && HasWidth(hospital, n) && HasWidth(icu, n) && HasWidth(deaths, n)
    requires k < |time| && b < 3
    ensures var row := Table(time, states, icum, hospital, icu, deaths, n)[k];
            |row| == 1 + 8 * (n + 1) && row[1 + b * (n + 1) + n] == Some(Sum(Block(states[k], b, n)))
  {
    TableAt(time, states, icum, hospital, icu, deaths, n, k, b, n);
    TotalOfSomes(Block(states[k], b, n));
  }

  /** The result: column names and rows. */
  datatype Results = Results(header: seq<Heading>, rows: seq<seq<Cell>>)

  /** Both occupancies at the queries, or the first failure. */
  function Occupancies(p: Parameters, y0: Vector, dense: real -> Vector, t0: real, time: seq<real>, dt: real, onlyReal: bool):
    (r: Result<(seq<seq<Cell>>, seq<seq<Cell>>)>)
    requires ValidParameters(p) && DenseFits(dense, |p.compartments|) && |y0| == 4 * |p.compartments|
    requires |time| >= 1 && dt != 0.0
    ensures r.Ok? ==> |r.value.0| == |r.value.1| == |time|
    ensures r.Ok? ==> HasWidth(r.value.0, |p.compartments|) && HasWidth(r.value.1, |p.compartments|)
    ensures r.Ok? <==>
              ActiveCases(p, y0, dense, t0, time, dt, p.hospitalizationProbability,
                          p.hospitalizationDuration, p.hospitalizationLag, 1, onlyReal).Ok? &&
              ActiveCases(p, y0, dense, t0, time, dt, p.icuProbability, p.icuDuration, p.icuLag, 2, onlyReal).Ok?
  {
    var hospital :- ActiveCases(p, y0, dense, t0, time, dt, p.hospitalizationProbability,
                                p.hospitalizationDuration, p.hospitalizationLag, 1, onlyReal);
    var icu :- ActiveCases(p, y0, dense, t0, time, dt, p.icuProbability, p.icuDuration, p.icuLag, 2, onlyReal);
    Ok((hospital, icu))
  }

  /** evaluate_solution for a simulation from t0 with dense solution `dense`
      and initial state y0, with dt = time[1] - time[0]. It fails for an
      initial state not 4N long, fewer than two queries, a zero step, a
      window of fewer than one step, or a window longer than the grid under
      only_real_results. */
  function Evaluate(p: Parameters, y0: Vector, dense: real -> Vector, t0: real, time: seq<real>, onlyReal: bool): (r: Result<Results>)
    requires ValidParameters(p) && DenseFits(dense, |p.compartments|)
    ensures r.Ok? <==> |y0| == 4 * |p.compartments| && |time| >= 2 && time[1] - time[0] != 0.0 &&
                       Occupancies(p, y0, dense, t0, time, time[1] - time[0], onlyReal).Ok?
    ensures r.Ok? ==> r.value.header == Header(p.compartments)
    ensures r.Ok? ==>
              var n := |p.compartments|;
              var rows := SolutionRows(dense, t0, y0, time);
              var occupancies := Occupancies(p, y0, dense, t0, time, time[1] - time[0], onlyReal).value;
              HasWidth(rows, 4 * n) &&
              r.value.rows == Table(time, rows, CumulativeInfected(p, y0, rows, time, t0), occupancies.0, occupancies.1,
                                    Deaths(DeathIntegral(p, y0, dense, t0, time), time, t0 + p.deathLag, onlyReal, n), n)
  {
    var n := |p.compartments|;
    if |y0| != 4 * n || |time| < 2 || time[1] - time[0] == 0.0 then Fail
    else
      var rows := SolutionRows(dense, t0, y0, time);
      SolutionWidth(dense, t0, y0, time, n);
      var occupancies :- Occupancies(p, y0, dense, t0, time, time[1] - time[0], onlyReal);
      var deaths := Deaths(DeathIntegral(p, y0, dense, t0, time), time, t0 + p.deathLag, onlyReal, n);
      Ok(Results(Header(p.compartments),
                 Table(time, rows, CumulativeInfected(p, y0, rows, time, t0), occupancies.0, occupancies.1, deaths, n)))
  }
}
