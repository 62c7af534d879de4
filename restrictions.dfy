/** The "[restriction NAME]" sections of a configuration file: compartment
    lists, modifier lines such as "[0-4, 5-9] : all : 0.5", the N x N
    prefactor matrix they build, the inclusive day window of one restriction
    and the product of several. A section is its (key, value) pairs; the file
    loader for "file://" modifiers is a parameter. */
module RestrictionsParser {
  import opened Wrappers
  import opened Text
  import opened Numeric

  // ---------------------------------------------------------------------------
  // Compartment lists

  /** re.match('(?i)(all)', s): the text starts with "all" in any case. */
  predicate StartsWithAll(s: string) {
    |s| >= 3 && Lower(s[..3]) == "all"
  }

  /** The last position k >= 2, not beyond bound, with s[k] == ']' and no line
      break in s[1..k]: where the greedy group of \[(.+)\] ends. */
  function LastClose(s: string, bound: int): (r: Option<nat>)
    requires bound < |s|
    ensures r.Some? ==> 2 <= r.value <= bound && s[r.value] == ']' && '\n' !in s[1..r.value]
    ensures forall k :: (if r.Some? then r.value else 1) < k <= bound ==>
              !(s[k] == ']' && '\n' !in s[1..k])
    decreases bound
  {
    if bound < 2 then None
    else if s[bound] == ']' && '\n' !in s[1..bound] then Some(bound)
    else LastClose(s, bound - 1)
  }

  /** re.match(r'\[(.+)\]', s).group(1), or None when it does not match. */
  function BracketGroup(s: string): (r: Option<string>)
    ensures r.Some? ==> |s| >= |r.value| + 2 && s[0] == '[' && |r.value| >= 1
                        && r.value == s[1..|r.value| + 1] && s[|r.value| + 1] == ']'
                        && '\n' !in r.value
  {
    if |s| >= 3 && s[0] == '[' then
      match LastClose(s, |s| - 1)
      case None => None
      case Some(k) => Some(s[1..k])
    else None
  }

  /** The compartments a modifier line names: one exact name, everything for
      text starting with "all", or a bracketed comma-separated list of known
      names; anything else fails. */
  function ParseCompartments(text: string, all: seq<string>): (r: Result<seq<string>>)
    ensures text in all ==> r == Ok([text])
    ensures text !in all && StartsWithAll(text) ==> r == Ok(all)
    ensures r.Ok? && text !in all && !StartsWithAll(text) ==>
              BracketGroup(text).Some? && r.value == StrippedItems(BracketGroup(text).value, ',')
    ensures r.Ok? ==> forall c <- r.value :: c in all
  {
    if text in all then Ok([text])
    else if StartsWithAll(text) then Ok(all)
    else
      match BracketGroup(text)
      case None => Fail
      case Some(body) =>
        var names := StrippedItems(body, ',');
        if forall c <- names :: c in all then Ok(names) else Fail
  }

  /** The group of "[" + body + "]" is the whole body when the body has no line break. */
  lemma BracketGroupOfBracketed(body: string)
    requires |body| >= 1 && '\n' !in body
    ensures BracketGroup("[" + body + "]") == Some(body)
  {
    var text := "[" + body + "]";
    assert text[1..|text| - 1] == body;
    assert LastClose(text, |text| - 1) == Some(|text| - 1);
  }

  /** Splitting a join of separator-free, already stripped items and
      stripping each gives the items back. */
  lemma StrippedJoin(items: seq<string>, sep: char)
    requires |items| >= 1
    requires forall c <- items :: sep !in c
    requires forall c <- items :: Strip(c) == c
    ensures StrippedItems(Join(items, sep), sep) == items
  {
    SplitJoin(items, sep);
    var r := StrippedItems(Join(items, sep), sep);
    forall i | 0 <= i < |items|
      ensures r[i] == items[i]
    {
      assert items[i] in items;
    }
  }

  /** A bracketed comma-separated list of known names, written without
      surrounding whitespace, resolves to exactly those names. */
  lemma BracketListParses(names: seq<string>, all: seq<string>)
    requires |names| >= 1
    requires forall c <- names :: c in all && ',' !in c && '\n' !in c
    requires forall c <- names :: |c| >= 1 && Strip(c) == c
    requires "[" + Join(names, ',') + "]" !in all
    ensures ParseCompartments("[" + Join(names, ',') + "]", all) == Ok(names)
  {
    var body := Join(names, ',');
    var text := "[" + body + "]";
    assert BracketGroup(text) == Some(body) by {
      JoinAvoids(names, ',', '\n');
      JoinKeepsFirst(names, ',');
      BracketGroupOfBracketed(body);
    }
    assert StrippedItems(body, ',') == names by {
      StrippedJoin(names, ',');
    }
    BracketedIsNotAll(body);
    ListResolves(text, all, body, names);
  }

  lemma ListResolves(text: string, all: seq<string>, body: string, names: seq<string>)
    requires text !in all && !StartsWithAll(text) && BracketGroup(text) == Some(body)
    requires StrippedItems(body, ',') == names && forall c <- names :: c in all
    ensures ParseCompartments(text, all) == Ok(names)
  {
  }

  lemma BracketedIsNotAll(body: string)
    ensures !StartsWithAll("[" + body + "]")
  {
    var text := "[" + body + "]";
    if |text| >= 3 {
      assert Lower(text[..3])[0] == '[';
    }
  }

  // ---------------------------------------------------------------------------
  // Modifier lines

  /** list.index: the first position of x. */
  function IndexOf(xs: seq<string>, x: string): (i: nat)
    requires x in xs
    ensures i < |xs| && xs[i] == x && forall k :: 0 <= k < i ==> xs[k] != x
  {
    if xs[0] == x then 0 else 1 + IndexOf(xs[1..], x)
  }

  function Indices(names: seq<string>, all: seq<string>): (r: seq<nat>)
    requires forall c <- names :: c in all
    ensures |r| == |names| && forall k :: 0 <= k < |r| ==> r[k] < |all| && all[r[k]] == names[k]
  {
    seq(|names|, k requires 0 <= k < |names| => IndexOf(all, names[k]))
  }

  /** itertools.product(xs, ys): every pair, xs varying slowest. */
  function Product(xs: seq<nat>, ys: seq<nat>): (r: seq<(nat, nat)>)
    ensures forall p :: p in r <==> p.0 in xs && p.1 in ys
  {
    if |xs| == 0 then []
    else
      var row := seq(|ys|, k requires 0 <= k < |ys| => (xs[0], ys[k]));
      forall p: (nat, nat) | p.0 == xs[0] && p.1 in ys
        ensures p in row
      {
        var k :| 0 <= k < |ys| && ys[k] == p.1;
        assert row[k] == p;
      }
      row + Product(xs[1..], ys)
  }

  /** product(c1, c2) + product(c2, c1) over the compartments' indices. */
  function Cells(first: seq<string>, second: seq<string>, all: seq<string>): (r: seq<(nat, nat)>)
    requires forall c <- first :: c in all
    requires forall c <- second :: c in all
    ensures CellsWithin(r, |all|) && SymmetricCells(r)
  {
    var rows := Indices(first, all);
    var columns := Indices(second, all);
    Product(rows, columns) + Product(columns, rows)
  }

  /** A parsed modifier line: the cells (row, column) it scales, and by how much. */
  datatype LineModifier = LineModifier(cells: seq<(nat, nat)>, factor: real)

  predicate CellsWithin(cells: seq<(nat, nat)>, n: nat) {
    forall p <- cells :: p.0 < n && p.1 < n
  }

  /** Cell (i, j) is listed exactly when (j, i) is. */
  ghost predicate SymmetricCells(cells: seq<(nat, nat)>) {
    forall i, j :: (i, j) in cells ==> (j, i) in cells
  }

  /** What every parsed line satisfies: some cell, all within the matrix, listed in both orders. */
  ghost predicate WellFormed(line: LineModifier, n: nat) {
    |line.cells| >= 1 && CellsWithin(line.cells, n) && SymmetricCells(line.cells)
  }

  /** "c1 : c2 : factor": both orderings of every pair of named compartments,
      scaled by the factor. Fails unless there are exactly three parts, both
      compartment lists resolve, the factor is a number and some cell is named. */
  function ParseModifierLine(line: string, all: seq<string>): (r: Result<LineModifier>)
    ensures r.Ok? ==> |Split(line, ':')| == 3
    ensures r.Ok? ==> ParseReal(Strip(Split(line, ':')[2])) == Some(r.value.factor)
    ensures r.Ok? ==> WellFormed(r.value, |all|)
    ensures r.Ok? ==> var first := ParseCompartments(Strip(Split(line, ':')[0]), all);
                      var second := ParseCompartments(Strip(Split(line, ':')[1]), all);
                      first.Ok? && second.Ok? && r.value.cells == Cells(first.value, second.value, all)
    ensures |Split(line, ':')| != 3 ==> r.Fail?
  {
    var parts := StrippedItems(line, ':');
    if |parts| != 3 then Fail
    else
      var first :- ParseCompartments(parts[0], all);
      var second :- ParseCompartments(parts[1], all);
      var cells := Cells(first, second, all);
      var factor :- ToResult(ParseReal(parts[2]));
      if |cells| == 0 then Fail else Ok(LineModifier(cells, factor))
  }

  /** The cells a line with these two compartment lists scales: (i, j) is
      listed exactly when the names at i and j are one from each list, in
      either order, and i and j are their first positions. */
  lemma {:induction false} CellsOfPair(first: seq<string>, second: seq<string>, all: seq<string>, i: nat, j: nat)
    requires forall c <- first :: c in all
    requires forall c <- second :: c in all
    ensures (i, j) in Cells(first, second, all) <==>
              i < |all| && j < |all| && i == IndexOf(all, all[i]) && j == IndexOf(all, all[j]) &&
              ((all[i] in first && all[j] in second) || (all[i] in second && all[j] in first))
  {
    IndexMembership(first, all, i);
    IndexMembership(second, all, i);
    IndexMembership(first, all, j);
    IndexMembership(second, all, j);
  }

  /** i is the index of one of the names exactly when it is the first position of a name in the list. */
  lemma IndexMembership(names: seq<string>, all: seq<string>, i: nat)
    requires forall c <- names :: c in all
    ensures i in Indices(names, all) <==> i < |all| && all[i] in names && i == IndexOf(all, all[i])
  {
    var ix := Indices(names, all);
    if i in ix {
      var k :| 0 <= k < |ix| && ix[k] == i;
      assert ix[k] == IndexOf(all, names[k]);
    }
    if i < |all| && all[i] in names && i == IndexOf(all, all[i]) {
      var k :| 0 <= k < |names| && names[k] == all[i];
      assert ix[k] == i;
    }
  }

  // ---------------------------------------------------------------------------
  // The prefactor matrix

  /** One line applied to a matrix: every listed cell scaled once by the
      factor, however often it is listed, the others unchanged. */
  function ApplyLine(m: Matrix, line: LineModifier, n: nat): (r: Matrix)
    requires IsSquare(m, n) && CellsWithin(line.cells, n)
    ensures IsSquare(r, n)
  {
    seq(n, i requires 0 <= i < n => seq(n, j requires 0 <= j < n =>
      if (i, j) in line.cells then m[i][j] * line.factor else m[i][j]))
  }

  predicate AllWithin(lines: seq<LineModifier>, n: nat) {
    forall l <- lines :: CellsWithin(l.cells, n)
  }

  /** The all-ones matrix with the lines applied in order. */
  function ApplyLines(lines: seq<LineModifier>, n: nat): (r: Matrix)
    requires AllWithin(lines, n)
    ensures IsSquare(r, n)
  {
    if |lines| == 0 then Ones(n)
    else ApplyLine(ApplyLines(lines[..|lines| - 1], n), lines[|lines| - 1], n)
  }

  lemma ApplyLinesSnoc(lines: seq<LineModifier>, line: LineModifier, n: nat, i: nat, j: nat)
    requires AllWithin(lines, n) && CellsWithin(line.cells, n) && i < n && j < n
    ensures AllWithin(lines + [line], n)
    ensures ApplyLines(lines + [line], n)[i][j] ==
            if (i, j) in line.cells then ApplyLines(lines, n)[i][j] * line.factor else ApplyLines(lines, n)[i][j]
  {
    assert (lines + [line])[..|lines|] == lines;
  }

  /** The product of the factors of the lines that list cell (i, j). */
  function CellFactor(lines: seq<LineModifier>, i: nat, j: nat): real {
    if |lines| == 0 then 1.0
    else
      var last := lines[|lines| - 1];
      CellFactor(lines[..|lines| - 1], i, j) * (if (i, j) in last.cells then last.factor else 1.0)
  }

  lemma CellFactorSnoc(lines: seq<LineModifier>, line: LineModifier, i: nat, j: nat)
    ensures CellFactor(lines + [line], i, j) ==
            if (i, j) in line.cells then CellFactor(lines, i, j) * line.factor else CellFactor(lines, i, j)
  {
    assert (lines + [line])[..|lines|] == lines;
  }

  /** Each line multiplies a cell at most once: cell (i, j) of the matrix is
      the product of the factors of the lines listing it. */
  lemma {:induction false} ApplyLinesCell(lines: seq<LineModifier>, n: nat, i: nat, j: nat)
    requires AllWithin(lines, n) && i < n && j < n
    ensures ApplyLines(lines, n)[i][j] == CellFactor(lines, i, j)
  {
    if |lines| > 0 {
      ApplyLinesCell(lines[..|lines| - 1], n, i, j);
    }
  }

  /** A matrix whose every cell is the product of its lines' factors is the lines applied in turn. */
  lemma ApplyLinesByCell(m: Matrix, lines: seq<LineModifier>, n: nat)
    requires IsSquare(m, n) && AllWithin(lines, n)
    requires forall i, j :: 0 <= i < n && 0 <= j < n ==> m[i][j] == CellFactor(lines, i, j)
    ensures m == ApplyLines(lines, n)
  {
    forall i, j | 0 <= i < n && 0 <= j < n
      ensures m[i][j] == ApplyLines(lines, n)[i][j]
    {
      ApplyLinesCell(lines, n, i, j);
    }
    assert forall i :: 0 <= i < n ==> m[i] == ApplyLines(lines, n)[i];
  }

  /** An array holding the factor of every cell holds the lines applied. */
  lemma ContentsByCell(a: array2<real>, lines: seq<LineModifier>)
    requires a.Length0 == a.Length1 && AllWithin(lines, a.Length0)
    requires forall i, j :: 0 <= i < a.Length0 && 0 <= j < a.Length1 ==> a[i, j] == CellFactor(lines, i, j)
    ensures Contents(a) == ApplyLines(lines, a.Length0)
  {
    ApplyLinesByCell(Contents(a), lines, a.Length0);
  }

  /** A cell no line lists stays 1. */
  lemma {:induction false} ApplyLinesUnlisted(lines: seq<LineModifier>, n: nat, i: nat, j: nat)
    requires AllWithin(lines, n) && i < n && j < n
    requires forall l <- lines :: (i, j) !in l.cells
    ensures ApplyLines(lines, n)[i][j] == 1.0
  {
    if |lines| > 0 {
      ApplyLinesUnlisted(lines[..|lines| - 1], n, i, j);
    }
  }

  /** Lines that list cells in both orders build a symmetric matrix. */
  lemma {:induction false} ApplyLinesSymmetric(lines: seq<LineModifier>, n: nat, i: nat, j: nat)
    requires AllWithin(lines, n) && i < n && j < n
    requires forall l <- lines :: SymmetricCells(l.cells)
    ensures ApplyLines(lines, n)[i][j] == ApplyLines(lines, n)[j][i]
  {
    if |lines| > 0 {
      var last := lines[|lines| - 1];
      ApplyLinesSymmetric(lines[..|lines| - 1], n, i, j);
      assert (i, j) in last.cells <==> (j, i) in last.cells by {
        if (i, j) in last.cells { assert ((i, j).1, (i, j).0) in last.cells; }
        if (j, i) in last.cells { assert ((j, i).1, (j, i).0) in last.cells; }
      }
    }
  }

  /** The lines of a modifier text, each parsed; fails at the first bad line. */
  function ParseLines(rows: seq<string>, all: seq<string>): (r: Result<seq<LineModifier>>)
    ensures r.Ok? ==> |r.value| == |rows| && forall l <- r.value :: WellFormed(l, |all|)
  {
    MapResult(rows, LineParser(all))
  }

  function LineParser(all: seq<string>): (parse: string -> Result<LineModifier>)
    ensures forall row :: parse(row).Ok? ==> CellsWithin(parse(row).value.cells, |all|)
  {
    row => ParseModifierLine(row, all)
  }

  /** The prefactor matrix a multi-line modifier text defines. */
  function ModifierMatrix(text: string, all: seq<string>): (r: Result<Matrix>)
    ensures r.Ok? ==> IsSquare(r.value, |all|)
  {
    var lines :- ParseLines(Split(Strip(text), '\n'), all);
    Ok(ApplyLines(lines, |all|))
  }

  /** A matrix built from modifier text is symmetric. */
  lemma ModifierMatrixSymmetric(text: string, all: seq<string>, i: nat, j: nat)
    requires ModifierMatrix(text, all).Ok? && i < |all| && j < |all|
    ensures ModifierMatrix(text, all).value[i][j] == ModifierMatrix(text, all).value[j][i]
  {
    var lines := ParseLines(Split(Strip(text), '\n'), all).value;
    ApplyLinesSymmetric(lines, |all|, i, j);
  }

  /** Builds the prefactor matrix line by line in an all-ones array, each line
      scaling its listed cells in place. */
  method BuildModifierMatrix(text: string, all: seq<string>) returns (r: Result<Matrix>)
    ensures r == ModifierMatrix(text, all)
  {
    var matrix := new real[|all|, |all|]((i, j) => 1.0);
    var rows := Split(Strip(text), '\n');
    var parsed := ApplyRows(matrix, rows, LineParser(all));
    assert parsed == ParseLines(rows, all);
    if parsed.Fail? {
      return Fail;
    }
    ContentsByCell(matrix, parsed.value);
    return Ok(Contents(matrix));
  }

  /** The loop over the modifier lines: parses each row with parse and scales
      its cells of the all-ones matrix in place, stopping at the first bad row. */
  method ApplyRows(matrix: array2<real>, rows: seq<string>, parse: string -> Result<LineModifier>)
    returns (parsed: Result<seq<LineModifier>>)
    requires matrix.Length0 == matrix.Length1
    requires forall i, j :: 0 <= i < matrix.Length0 && 0 <= j < matrix.Length1 ==> matrix[i, j] == 1.0
    requires forall row :: parse(row).Ok? ==> CellsWithin(parse(row).value.cells, matrix.Length0)
    modifies matrix
    ensures parsed == MapResult(rows, parse)
    ensures parsed.Ok? ==> AllWithin(parsed.value, matrix.Length0)
    ensures parsed.Ok? ==> forall i, j :: 0 <= i < matrix.Length0 && 0 <= j < matrix.Length1 ==>
              matrix[i, j] == CellFactor(parsed.value, i, j)
  {
    var n := matrix.Length0;
    var lines: seq<LineModifier> := [];
    var k := 0;
    while k < |rows|
      invariant 0 <= k <= |rows|
      invariant |lines| == k && forall i :: 0 <= i < k ==> parse(rows[i]) == Ok(lines[i])
      invariant AllWithin(lines, n)
      invariant forall i, j :: 0 <= i < n && 0 <= j < n ==> matrix[i, j] == CellFactor(lines, i, j)
    {
      var line := parse(rows[k]);
      if line.Fail? {
        return Fail;
      }
      ScaleCells(matrix, line.value.cells, line.value.factor);
      forall i: nat, j: nat | i < n && j < n
        ensures matrix[i, j] == CellFactor(lines + [line.value], i, j)
      {
        CellFactorSnoc(lines, line.value, i, j);
      }
      lines := lines + [line.value];
      k := k + 1;
    }
    MapResultAll(rows, parse, lines);
    return Ok(lines);
  }

  /** matrix[idx_i, idx_j] *= factor: every listed cell scaled once, however
      often it is listed, the others unchanged. */
  method ScaleCells(matrix: array2<real>, cells: seq<(nat, nat)>, factor: real)
    requires CellsWithin(cells, matrix.Length0) && matrix.Length0 == matrix.Length1
    modifies matrix
    ensures forall i, j :: 0 <= i < matrix.Length0 && 0 <= j < matrix.Length1 ==>
              matrix[i, j] == if (i, j) in cells then old(matrix[i, j]) * factor else old(matrix[i, j])
  {
    forall c | 0 <= c < |cells| {
      matrix[cells[c].0, cells[c].1] := matrix[cells[c].0, cells[c].1] * factor;
    }
    forall i, j | 0 <= i < matrix.Length0 && 0 <= j < matrix.Length1 && (i, j) in cells
      ensures matrix[i, j] == old(matrix[i, j]) * factor
    {
      var c :| 0 <= c < |cells| && cells[c] == (i, j);
    }
  }

  // ---------------------------------------------------------------------------
  // One restriction section

  /** A restriction: its modifier applies on the days begins..ends inclusive. */
  datatype Restriction = Restriction(begins: int, ends: int, modifier: Modifier)

  /** The info dictionary of a restriction. */
  datatype Info = Info(begins: int, ends: int, title: string)

  /** The restriction function at time t. */
  function RestrictionAt(r: Restriction, t: real): (m: Modifier)
    ensures m == (if r.begins as real <= t <= r.ends as real then r.modifier else Scalar(1.0))
  {
    if r.begins as real <= t && t <= r.ends as real then r.modifier else Scalar(1.0)
  }

  type Section = seq<(string, string)>

  /** dict(items)[key]: the value of the last pair with that key. */
  function Lookup(section: Section, key: string): (r: Result<string>)
    ensures r.Ok? <==> exists p <- section :: p.0 == key
    ensures r.Ok? ==> exists i :: 0 <= i < |section| && section[i] == (key, r.value) &&
                                 forall j :: i < j < |section| ==> section[j].0 != key
  {
    if |section| == 0 then Fail
    else if section[|section| - 1].0 == key then Ok(section[|section| - 1].1)
    else
      var init := section[..|section| - 1];
      var r := Lookup(init, key);
      assert forall p <- init :: p in section;
      assert r.Ok? ==> exists p <- section :: p.0 == key;
      assert (exists p <- section :: p.0 == key) ==> exists p <- init :: p.0 == key by {
        if p :| p in section && p.0 == key {
          var i :| 0 <= i < |section| && section[i] == p;
          assert i < |section| - 1 && init[i] == p;
        }
      }
      if r.Ok? then
        var i :| 0 <= i < |init| && init[i] == (key, r.value) &&
                 forall j :: i < j < |init| ==> init[j].0 != key;
        assert section[i] == (key, r.value);
        assert forall j :: i < j < |section| ==> section[j].0 != key by {
          forall j | i < j < |section|
            ensures section[j].0 != key
          {
            if j < |section| - 1 {
              assert section[j] == init[j];
            }
          }
        }
        r
      else
        r
  }

  /** The section name with its first space-separated word dropped. */
  function Title(name: string): string {
    Join(Split(name, ' ')[1..], ' ')
  }

  lemma TitleDropsFirstWord(word: string, rest: string)
    requires ' ' !in word
    ensures Title(word + " " + rest) == rest
  {
    SplitPrefix(word, rest, ' ');
    assert word + " " + rest == word + [' '] + rest;
  }

  lemma RestrictionTitle(title: string)
    ensures Title("restriction " + title) == title
  {
    var word := "restriction";
    assert forall i :: 0 <= i < |word| ==> word[i] != ' ';
    TitleDropsFirstWord(word, title);
    assert word + " " + title == "restriction " + title;
  }

  lemma TitleOfOneWord(name: string)
    requires ' ' !in name
    ensures Title(name) == ""
  {
    SplitNoSeparator(name, ' ');
  }

  /** The modifier text: a non-zero number is a scalar, text starting with
      "file://" names a matrix file, anything else (0 included) is parsed as
      modifier lines. */
  function InterpretModifier(text: string, all: seq<string>, load: string -> Option<Matrix>): (r: Result<Modifier>)
    ensures r.Ok? ==> Fits(r.value, |all|)
    ensures ParseReal(text).Some? && ParseReal(text).value != 0.0 ==> r == Ok(Scalar(ParseReal(text).value))
    ensures !(ParseReal(text).Some? && ParseReal(text).value != 0.0) && !StartsWith(Strip(text), "file://") ==>
              (r.Ok? <==> ModifierMatrix(text, all).Ok?) &&
              (r.Ok? ==> r.value == Prefactors(ModifierMatrix(text, all).value))
    ensures r.Ok? && r.value.Scalar? ==> r.value.factor != 0.0
  {
    if ParseReal(text).Some? && ParseReal(text).value != 0.0 then Ok(Scalar(ParseReal(text).value))
    else if StartsWith(Strip(text), "file://") then
      var m :- ToResult(load(RemoveAll(Strip(text), "file://")));
      if IsSquare(m, |all|) then Ok(Prefactors(m)) else Fail
    else
      var m :- ModifierMatrix(text, all);
      Ok(Prefactors(m))
  }

  /** A modifier of 0 is not taken as a scalar: it goes to the line parser,
      where a line without two ':' fails. */
  lemma ZeroModifierFails(all: seq<string>, load: string -> Option<Matrix>)
    ensures InterpretModifier("0", all, load).Fail?
  {
    ZeroIsNumber();
    ZeroIsNoLine(all);
  }

  lemma ZeroIsNumber()
    ensures ParseReal("0") == Some(0.0) && Strip("0") == "0"
  {
    assert DecimalText(0) == "0";
    ParseRealDecimal(0);
    DigitsHaveNoSpace("0");
  }

  lemma ZeroIsNoLine(all: seq<string>)
    ensures ModifierMatrix("0", all).Fail?
  {
    DigitsHaveNoSpace("0");
    SplitNoSeparator("0", '\n');
    var rows := Split(Strip("0"), '\n');
    assert rows == ["0"];
    SplitNoSeparator("0", ':');
    assert ParseModifierLine("0", all).Fail?;
    assert LineParser(all)(rows[0]).Fail?;
    assert ParseLines(rows, all).Fail?;
  }

  /** One "[restriction NAME]" section: integer days, the title, the modifier. */
  function ParseRestrictionSection(section: Section, name: string, all: seq<string>,
                                   load: string -> Option<Matrix>): (r: Result<(Restriction, Info)>)
    ensures r.Ok? ==> Fits(r.value.0.modifier, |all|)
    ensures r.Ok? ==> r.value.1 == Info(r.value.0.begins, r.value.0.ends, Title(name))
    ensures r.Ok? ==> Lookup(section, "day-begins").Ok? && ParseInt(Lookup(section, "day-begins").value) == Some(r.value.0.begins)
    ensures r.Ok? ==> Lookup(section, "day-ends").Ok? && ParseInt(Lookup(section, "day-ends").value) == Some(r.value.0.ends)
    ensures r.Ok? ==> (Lookup(section, "infectivity modifier").Ok? &&
              InterpretModifier(Lookup(section, "infectivity modifier").value, all, load) == Ok(r.value.0.modifier))
  {
    var beginsText :- Lookup(section, "day-begins");
    var begins :- ToResult(ParseInt(beginsText));
    var endsText :- Lookup(section, "day-ends");
    var ends :- ToResult(ParseInt(endsText));
    var modifierText :- Lookup(section, "infectivity modifier");
    var modifier :- InterpretModifier(modifierText, all, load);
    Ok((Restriction(begins, ends, modifier), Info(begins, ends, Title(name))))
  }

  // ---------------------------------------------------------------------------
  // All restriction sections

  predicate IsRestrictionName(name: string) {
    StartsWith(Lower(name), "restriction")
  }

  /** The sections whose lower-cased name starts with "restriction", in order. */
  function RestrictionSections(config: seq<(string, Section)>): (r: seq<(string, Section)>)
    ensures forall s <- r :: s in config && IsRestrictionName(s.0)
    ensures forall s <- config :: IsRestrictionName(s.0) ==> s in r
  {
    if |config| == 0 then []
    else
      var init := RestrictionSections(config[..|config| - 1]);
      assert forall s <- config[..|config| - 1] :: s in config;
      var last := config[|config| - 1];
      if IsRestrictionName(last.0) then init + [last] else init
  }

  /** One section is kept iff it is named "restriction ...". */
  lemma RestrictionSectionsOne(s: (string, Section))
    ensures RestrictionSections([s]) == if IsRestrictionName(s.0) then [s] else []
  {
    assert [s][..0] == [];
  }

  /** The filter distributes over concatenation: the kept sections stay in
      config order, each as many times as the config lists it. */
  lemma {:induction false} RestrictionSectionsAppend(a: seq<(string, Section)>, b: seq<(string, Section)>)
    ensures RestrictionSections(a + b) == RestrictionSections(a) + RestrictionSections(b)
  {
    if |b| == 0 {
      assert a + b == a;
    } else {
      var b' := b[..|b| - 1];
      var last := b[|b| - 1];
      assert (a + b)[..|a + b| - 1] == a + b';
      assert (a + b)[|a + b| - 1] == last;
      RestrictionSectionsAppend(a, b');
    }
  }

  /** The sections parsed one by one; fails at the first bad one. */
  function ParseSections(sections: seq<(string, Section)>, all: seq<string>,
                         load: string -> Option<Matrix>): Result<seq<(Restriction, Info)>> {
    MapResult(sections, SectionParser(all, load))
  }

  function SectionParser(all: seq<string>, load: string -> Option<Matrix>): ((string, Section)) -> Result<(Restriction, Info)> {
    (s: (string, Section)) => ParseRestrictionSection(s.1, s.0, all, load)
  }

  /** What parse_restriction_sections returns: nothing, one restriction and its
      info unwrapped, or several restrictions and the list of their infos. */
  datatype Composed =
    | NoRestrictions
    | Single(restriction: Restriction, info: Info)
    | Several(restrictions: seq<Restriction>, infos: seq<Info>)

  function Compose(parsed: seq<(Restriction, Info)>): (c: Composed)
    ensures |parsed| == 0 <==> c.NoRestrictions?
    ensures |parsed| == 1 <==> c.Single?
    ensures c.Single? ==> (c.restriction, c.info) == parsed[0]
    ensures c.Several? ==> (|c.restrictions| == |c.infos| == |parsed| &&
              forall k :: 0 <= k < |parsed| ==> parsed[k] == (c.restrictions[k], c.infos[k]))
  {
    if |parsed| == 0 then NoRestrictions
    else if |parsed| == 1 then Single(parsed[0].0, parsed[0].1)
    else Several(seq(|parsed|, k requires 0 <= k < |parsed| => parsed[k].0),
                 seq(|parsed|, k requires 0 <= k < |parsed| => parsed[k].1))
  }

  function ParseRestrictions(config: seq<(string, Section)>, all: seq<string>,
                             load: string -> Option<Matrix>): Result<Composed> {
    var parsed :- ParseSections(RestrictionSections(config), all, load);
    Ok(Compose(parsed))
  }

  /** Parses the restriction sections in order, collecting the functions and infos. */
  method ParseRestrictionSections(config: seq<(string, Section)>, all: seq<string>,
                                  load: string -> Option<Matrix>) returns (r: Result<Composed>)
    ensures r == ParseRestrictions(config, all, load)
  {
    var collected := CollectSections(RestrictionSections(config), SectionParser(all, load));
    if collected.Fail? {
      return Fail;
    }
    var (restrictions, infos) := collected.value;
    if |restrictions| == 0 {
      r := Ok(NoRestrictions);
    } else if |restrictions| == 1 {
      r := Ok(Single(restrictions[0], infos[0]));
    } else {
      ComposeSeveral(MapResult(RestrictionSections(config), SectionParser(all, load)).value, restrictions, infos);
      r := Ok(Several(restrictions, infos));
    }
  }

  /** The loop over the restriction sections: parses each with parse and appends
      its function and its info, stopping at the first bad section. */
  method CollectSections(sections: seq<(string, Section)>, parse: ((string, Section)) -> Result<(Restriction, Info)>)
    returns (r: Result<(seq<Restriction>, seq<Info>)>)
    ensures r.Ok? <==> MapResult(sections, parse).Ok?
    ensures r.Ok? ==> var parsed := MapResult(sections, parse).value;
              |r.value.0| == |r.value.1| == |parsed| &&
              forall i :: 0 <= i < |parsed| ==> parsed[i] == (r.value.0[i], r.value.1[i])
  {
    ghost var parsed: seq<(Restriction, Info)> := [];
    var restrictions: seq<Restriction> := [];
    var infos: seq<Info> := [];
    var k := 0;
    while k < |sections|
      invariant 0 <= k <= |sections|
      invariant |restrictions| == |infos| == |parsed| == k
      invariant forall i :: 0 <= i < k ==> parse(sections[i]) == Ok(parsed[i])
      invariant forall i :: 0 <= i < k ==> parsed[i] == (restrictions[i], infos[i])
    {
      var section := parse(sections[k]);
      if section.Fail? {
        return Fail;
      }
      parsed := parsed + [section.value];
      restrictions := restrictions + [section.value.0];
      infos := infos + [section.value.1];
      k := k + 1;
    }
    MapResultAll(sections, parse, parsed);
    return Ok((restrictions, infos));
  }

  lemma ComposeSeveral(parsed: seq<(Restriction, Info)>, restrictions: seq<Restriction>, infos: seq<Info>)
    requires |parsed| >= 2 && |restrictions| == |infos| == |parsed|
    requires forall i :: 0 <= i < |parsed| ==> parsed[i] == (restrictions[i], infos[i])
    ensures Compose(parsed) == Several(restrictions, infos)
  {
  }

  predicate AllFit(rs: seq<Restriction>, n: nat) {
    forall r <- rs :: Fits(r.modifier, n)
  }

  /** The product of the restriction functions at t, starting from 1.0. */
  function ProductAt(rs: seq<Restriction>, t: real, n: nat): (m: Modifier)
    requires AllFit(rs, n)
    ensures Fits(m, n)
  {
    if |rs| == 0 then Scalar(1.0)
    else Multiply(ProductAt(rs[..|rs| - 1], t, n), RestrictionAt(rs[|rs| - 1], t), n)
  }

  /** The composite restriction function: multiplies the functions' values at t in turn. */
  method EvaluateComposite(rs: seq<Restriction>, t: real, n: nat) returns (m: Modifier)
    requires AllFit(rs, n)
    ensures m == ProductAt(rs, t, n)
  {
    m := Scalar(1.0);
    var k := 0;
    while k < |rs|
      invariant 0 <= k <= |rs|
      invariant m == ProductAt(rs[..k], t, n)
    {
      assert rs[..k + 1][..k] == rs[..k];
      m := Multiply(m, RestrictionAt(rs[k], t), n);
      k := k + 1;
    }
    assert rs[..k] == rs;
  }

  /** Outside every window the composite is exactly 1.0. */
  lemma {:induction false} ProductOutsideWindows(rs: seq<Restriction>, t: real, n: nat)
    requires AllFit(rs, n)
    requires forall r <- rs :: !(r.begins as real <= t <= r.ends as real)
    ensures ProductAt(rs, t, n) == Scalar(1.0)
  {
    if |rs| > 0 {
      ProductOutsideWindows(rs[..|rs| - 1], t, n);
      assert rs[|rs| - 1] in rs;
    }
  }

  /** Every entry of the composite is the product of the active restrictions' entries. */
  function ActiveEntry(rs: seq<Restriction>, t: real, n: nat, i: nat, j: nat): real
    requires AllFit(rs, n) && i < n && j < n
  {
    if |rs| == 0 then 1.0
    else
      var last := rs[|rs| - 1];
      ActiveEntry(rs[..|rs| - 1], t, n, i, j) *
        (if last.begins as real <= t <= last.ends as real then EntryOf(last.modifier, n, i, j) else 1.0)
  }

  lemma {:induction false} ProductEntries(rs: seq<Restriction>, t: real, n: nat, i: nat, j: nat)
    requires AllFit(rs, n) && i < n && j < n
    ensures EntryOf(ProductAt(rs, t, n), n, i, j) == ActiveEntry(rs, t, n, i, j)
  {
    if |rs| > 0 {
      ProductEntries(rs[..|rs| - 1], t, n, i, j);
    }
  }

  /** A single restriction returned unwrapped agrees entry by entry with the
      composite of that one restriction. */
  lemma SingleAgreesWithProduct(r: Restriction, t: real, n: nat, i: nat, j: nat)
    requires Fits(r.modifier, n) && i < n && j < n
    ensures EntryOf(ProductAt([r], t, n), n, i, j) == EntryOf(RestrictionAt(r, t), n, i, j)
  {
    assert [r][..0] == [];
  }

  /** The converse of ParseRestrictionSection's contract: days that parse as
      integers and a modifier that is understood make the section parse. */
  lemma SectionParses(section: Section, name: string, all: seq<string>, load: string -> Option<Matrix>,
                      begins: int, ends: int, modifier: Modifier)
    requires Lookup(section, "day-begins").Ok? && ParseInt(Lookup(section, "day-begins").value) == Some(begins)
    requires Lookup(section, "day-ends").Ok? && ParseInt(Lookup(section, "day-ends").value) == Some(ends)
    requires Lookup(section, "infectivity modifier").Ok?
    requires InterpretModifier(Lookup(section, "infectivity modifier").value, all, load) == Ok(modifier)
    ensures ParseRestrictionSection(section, name, all, load) ==
            Ok((Restriction(begins, ends, modifier), Info(begins, ends, Title(name))))
  {
  }

  /** The decimal text of a positive number is a scalar modifier. */
  lemma InterpretDecimal(factor: nat, all: seq<string>, load: string -> Option<Matrix>)
    requires factor > 0
    ensures InterpretModifier(DecimalText(factor), all, load) == Ok(Scalar(factor as real))
  {
    ParseRealDecimal(factor);
  }

  /** A section "[restriction TITLE]" whose days and scalar modifier are
      written as decimal numbers, such as day-begins 40 and day-ends 100 for
      "[restriction school-closure]", parses to those days and that title. */
  lemma DecimalSectionParses(begins: nat, ends: nat, factor: nat, title: string,
                             all: seq<string>, load: string -> Option<Matrix>)
    requires factor > 0
    ensures var section := [("day-begins", DecimalText(begins)), ("day-ends", DecimalText(ends)),
                            ("infectivity modifier", DecimalText(factor))];
            ParseRestrictionSection(section, "restriction " + title, all, load) ==
            Ok((Restriction(begins, ends, Scalar(factor as real)), Info(begins, ends, title)))
  {
    var section := [("day-begins", DecimalText(begins)), ("day-ends", DecimalText(ends)),
                    ("infectivity modifier", DecimalText(factor))];
    assert Lookup(section, "day-begins") == Ok(DecimalText(begins));
    assert Lookup(section, "day-ends") == Ok(DecimalText(ends));
    assert Lookup(section, "infectivity modifier") == Ok(DecimalText(factor));
    ParseIntDecimal(begins);
    ParseIntDecimal(ends);
    InterpretDecimal(factor, all, load);
    SectionParses(section, "restriction " + title, all, load, begins, ends, Scalar(factor as real));
    RestrictionTitle(title);
  }
}
