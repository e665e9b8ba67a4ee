/** Triage scoring, its CSV shell of marks and formulas, and the re-scoring loop through that CSV. */
module Rescore {
  import opened Options
  import opened Text
  import opened Delimited
  import opened Numerals

  // ---------------------------------------------------------------- scoring

  datatype Marks = Marks(query: int, simple: int, complexFn: int, tpcall: int, branch: int, tierHigh: int, tierMedium: int)

  /** The run's scoring options. */
  datatype Scoring = Scoring(marks: Marks, fnWeights: map<string, int>)

  datatype Class = Simple | Complex

  datatype ExternalFn = ExternalFn(name: string, cls: Class, weight: int)

  datatype FnDef = FnDef(hasSQL: bool, hasTpCall: bool)

  /** Known definitions by name, and the names the conversion convention covers. */
  datatype Corpus = Corpus(defs: map<string, FnDef>, conversions: set<string>)

  function TierClass(name: string, c: Corpus): Class {
    if name in c.defs then if c.defs[name].hasSQL || c.defs[name].hasTpCall then Complex else Simple
    else if name in c.conversions then Simple else Complex
  }

  function TierMark(cls: Class, m: Marks): int {
    if cls.Simple? then m.simple else m.complexFn
  }

  function ClassifyExternal(name: string, c: Corpus, opts: Scoring): ExternalFn {
    var cls := TierClass(name, c);
    ExternalFn(name, cls, if name in opts.fnWeights then opts.fnWeights[name] else TierMark(cls, opts.marks))
  }

  /** What scanning and dependency resolution know of a file: its counts, the names of its external
      functions in order, and the texts of the descriptive columns. */
  datatype Facts = Facts(file: string, numLines: int, numQueries: int, branchFactor: int, branchCount: int,
                         tpCalls: int, fnLocal: int, selects: int, inserts: int, updates: int, deletes: int,
                         merges: int, externals: seq<string>, reasons: string, tpDeps: string, tpDepScore: int,
                         tpUnresolved: int, fnFileDeps: string, fnDepScore: int)

  datatype Report = Report(facts: Facts, externals: seq<ExternalFn>, score: int, tier: string)

  function Classified(names: seq<string>, c: Corpus, opts: Scoring): seq<ExternalFn> {
    seq(|names|, k requires 0 <= k < |names| => ClassifyExternal(names[k], c, opts))
  }

  function ExtWeight(fns: seq<ExternalFn>): int {
    if fns == [] then 0 else ExtWeight(fns[..|fns| - 1]) + fns[|fns| - 1].weight
  }

  function Score(f: Facts, fns: seq<ExternalFn>, m: Marks): int {
    f.numQueries * m.query + ExtWeight(fns) + f.tpCalls * m.tpcall + f.branchFactor * m.branch
  }

  function Tier(score: int, m: Marks): string {
    if score >= m.tierHigh then "HIGH" else if score >= m.tierMedium then "MEDIUM" else "LOW"
  }

  function Analyze(f: Facts, c: Corpus, opts: Scoring): Report {
    var fns := Classified(f.externals, c, opts);
    var score := Score(f, fns, opts.marks);
    Report(f, fns, score, Tier(score, opts.marks))
  }

  method SumWeights(fns: seq<ExternalFn>) returns (weight: int)
    ensures weight == ExtWeight(fns)
  {
    weight := 0;
    for i := 0 to |fns|
      invariant weight == ExtWeight(fns[..i])
    {
      assert fns[..i + 1][..i] == fns[..i];
      weight := weight + fns[i].weight;
    }
    assert fns[..|fns|] == fns;
  }

  method AnalyzeFacts(f: Facts, c: Corpus, opts: Scoring) returns (r: Report)
    ensures r == Analyze(f, c, opts)
  {
    var fns: seq<ExternalFn> := [];
    for i := 0 to |f.externals|
      invariant fns == Classified(f.externals[..i], c, opts)
    {
      fns := fns + [ClassifyExternal(f.externals[i], c, opts)];
    }
    assert f.externals[..|f.externals|] == f.externals;
    var weight := SumWeights(fns);
    var score := f.numQueries * opts.marks.query + weight + f.tpCalls * opts.marks.tpcall + f.branchFactor * opts.marks.branch;
    var tier := "LOW";
    if score >= opts.marks.tierHigh {
      tier := "HIGH";
    } else if score >= opts.marks.tierMedium {
      tier := "MEDIUM";
    }
    r := Report(f, fns, score, tier);
  }

  // ---------------------------------------------------------------- the sheet

  /** Spreadsheet formulas the writer emits. A reference with `absolute` fixes its row. */
  datatype Expr =
    | Ref(col: string, row: nat, absolute: bool)
    | Mul(left: Expr, right: Expr)
    | Add(left: Expr, right: Expr)
    | IfAtLeast(value: Expr, bound: Expr, yes: Expr, no: Expr)
    | Str(text: string)

  datatype Cell = Plain(text: string) | Formula(expr: Expr)

  function ShowExpr(e: Expr): string {
    match e
    case Ref(col, row, absolute) => col + (if absolute then "$" else "") + Itoa(row)
    case Mul(a, b) => ShowExpr(a) + "*" + ShowExpr(b)
    case Add(a, b) => ShowExpr(a) + "+" + ShowExpr(b)
    case IfAtLeast(v, b, y, n) => "IF(" + ShowExpr(v) + ">=" + ShowExpr(b) + "," + ShowExpr(y) + "," + ShowExpr(n) + ")"
    case Str(t) => "\"" + t + "\""
  }

  function ShowCell(c: Cell): string {
    match c
    case Plain(text) => text
    case Formula(e) => "=" + ShowExpr(e)
  }

  datatype SheetValue = Num(n: int) | Txt(s: string) | Bad

  type Sheet = seq<seq<Cell>>

  /** Value of a formula on a sheet, following at most `depth` formula cells. */
  function Eval(sheet: Sheet, e: Expr, depth: nat): SheetValue
    decreases depth, e
  {
    match e
    case Str(t) => Txt(t)
    case Ref(col, row, _) =>
      if !AllLetters(col) || row == 0 || row > |sheet| then Bad
      else
        var k := ColIndex(col);
        if k == 0 || k > |sheet[row - 1]| then Bad
        else
          (match sheet[row - 1][k - 1]
           case Plain(text) => (match Atoi(text) case Some(n) => Num(n) case None => Txt(text))
           case Formula(f) => if depth == 0 then Bad else Eval(sheet, f, depth - 1))
    case Mul(a, b) =>
      (match (Eval(sheet, a, depth), Eval(sheet, b, depth))
       case (Num(x), Num(y)) => Num(x * y)
       case _ => Bad)
    case Add(a, b) =>
      (match (Eval(sheet, a, depth), Eval(sheet, b, depth))
       case (Num(x), Num(y)) => Num(x + y)
       case _ => Bad)
    case IfAtLeast(v, b, y, n) =>
      (match (Eval(sheet, v, depth), Eval(sheet, b, depth))
       case (Num(x), Num(z)) => if x >= z then Eval(sheet, y, depth) else Eval(sheet, n, depth)
       case _ => Bad)
  }

  const COLUMNS := 25

  const HEADER: seq<string> := [
    "file", "num_lines", "num_queries", "branching_factor", "branch_count", "has_tpcall", "tpcall_count",
    "fn_local_count", "fn_external_count", "external_fns", "external_weight", "select_count", "insert_count",
    "update_count", "delete_count", "merge_count", "complexity_score", "complexity", "reasons", "tp_svc_deps",
    "tp_dep_score", "tp_unresolved", "fn_file_deps", "fn_dep_score", "tp_total_score"]

  // 1-based columns of the header names the formulas and the marks row use
  const QUERIES_COL := 3
  const BRANCH_COL := 4
  const TPCALL_COL := 7
  const EXTERNALS_COL := 10
  const WEIGHT_COL := 11
  const SCORE_COL := 17
  const TIER_COL := 18
  const DEP_COL := 21
  const FN_DEP_COL := 24

  function MarkPairs(m: Marks): seq<string> {
    ["query=" + Itoa(m.query), "simple=" + Itoa(m.simple), "complex=" + Itoa(m.complexFn), "tpcall=" + Itoa(m.tpcall),
     "branch=" + Itoa(m.branch), "tier_high=" + Itoa(m.tierHigh), "tier_medium=" + Itoa(m.tierMedium)]
  }

  function MarksLine(m: Marks): string {
    "# tuxgo marks: " + JoinOn(MarkPairs(m), ' ')
  }

  function MarksRow(m: Marks): seq<string> {
    ["", "", Itoa(m.query), Itoa(m.branch), "", "", Itoa(m.tpcall), "", "", Itoa(m.simple), Itoa(m.complexFn),
     "", "", "", "", "", Itoa(m.tierHigh), Itoa(m.tierMedium), "", "", "", "", "", "", ""]
  }

  function At(col: nat, row: nat): Expr {
    Ref(ColLetters(col), row, false)
  }

  /** The marks cell over a column. */
  function MarkAt(col: nat): Expr {
    Ref(ColLetters(col), 2, true)
  }

  function ScoreFormula(row: nat): Expr {
    Add(Add(Add(Mul(MarkAt(QUERIES_COL), At(QUERIES_COL, row)), Mul(MarkAt(BRANCH_COL), At(BRANCH_COL, row))),
            Mul(MarkAt(TPCALL_COL), At(TPCALL_COL, row))), At(WEIGHT_COL, row))
  }

  function TierFormula(row: nat): Expr {
    IfAtLeast(At(SCORE_COL, row), MarkAt(SCORE_COL), Str("HIGH"),
              IfAtLeast(At(SCORE_COL, row), MarkAt(TIER_COL), Str("MEDIUM"), Str("LOW")))
  }

  function TotalFormula(row: nat): Expr {
    Add(Add(At(SCORE_COL, row), At(DEP_COL, row)), At(FN_DEP_COL, row))
  }

  function ShowClass(cls: Class): string {
    if cls.Simple? then "simple" else "complex"
  }

  function ShowFn(fn: ExternalFn): string {
    fn.name + ":" + ShowClass(fn.cls) + ":" + Itoa(fn.weight)
  }

  function ShowFns(fns: seq<ExternalFn>): seq<string> {
    seq(|fns|, k requires 0 <= k < |fns| => ShowFn(fns[k]))
  }

  function RowCells(r: Report, row: nat): (cells: seq<Cell>)
    ensures |cells| == COLUMNS
  {
    var f := r.facts;
    [Plain(f.file), Plain(Itoa(f.numLines)), Plain(Itoa(f.numQueries)), Plain(Itoa(f.branchFactor)),
     Plain(Itoa(f.branchCount)), Plain(if f.tpCalls > 0 then "true" else "false"), Plain(Itoa(f.tpCalls)),
     Plain(Itoa(f.fnLocal)), Plain(Itoa(|r.externals|)), Plain(JoinOn(ShowFns(r.externals), ';')),
     Plain(Itoa(ExtWeight(r.externals))), Plain(Itoa(f.selects)), Plain(Itoa(f.inserts)), Plain(Itoa(f.updates)),
     Plain(Itoa(f.deletes)), Plain(Itoa(f.merges)), Formula(ScoreFormula(row)), Formula(TierFormula(row)),
     Plain(f.reasons), Plain(f.tpDeps), Plain(Itoa(f.tpDepScore)), Plain(Itoa(f.tpUnresolved)), Plain(f.fnFileDeps),
     Plain(Itoa(f.fnDepScore)), Formula(TotalFormula(row))]
  }

  function PlainCells(texts: seq<string>): seq<Cell> {
    seq(|texts|, k requires 0 <= k < |texts| => Plain(texts[k]))
  }

  function ShowCells(cells: seq<Cell>): seq<string> {
    seq(|cells|, k requires 0 <= k < |cells| => ShowCell(cells[k]))
  }

  /** Row 1 the marks line, row 2 the marks cells, row 3 the header, then one row a report. */
  function SheetOf(reports: seq<Report>, m: Marks): (s: Sheet)
    ensures |s| == |reports| + 3
  {
    [PlainCells([MarksLine(m)]), PlainCells(MarksRow(m)), PlainCells(HEADER)] +
    seq(|reports|, k requires 0 <= k < |reports| => RowCells(reports[k], k + 4))
  }

  function Records(sheet: Sheet): seq<seq<string>> {
    seq(|sheet|, k requires 0 <= k < |sheet| => ShowCells(sheet[k]))
  }

  /** A cell that holds a number. */
  predicate NumberAt(sheet: Sheet, col: nat, row: nat, n: int) {
    1 <= row <= |sheet| && 1 <= col <= |sheet[row - 1]| && sheet[row - 1][col - 1] == Plain(Itoa(n))
  }

  lemma CellNumber(sheet: Sheet, col: nat, row: nat, absolute: bool, n: int, depth: nat)
    requires NumberAt(sheet, col, row, n)
    ensures Eval(sheet, Ref(ColLetters(col), row, absolute), depth) == Num(n)
  {
    ColumnOfLetters(col);
    AtoiItoa(n);
    hide Atoi, Itoa, ColIndex, ColLetters;
  }

  /** The marks cells lie over the columns they score. */
  lemma MarksCells(reports: seq<Report>, m: Marks)
    ensures var sheet := SheetOf(reports, m);
            && NumberAt(sheet, QUERIES_COL, 2, m.query) && NumberAt(sheet, BRANCH_COL, 2, m.branch)
            && NumberAt(sheet, TPCALL_COL, 2, m.tpcall) && NumberAt(sheet, SCORE_COL, 2, m.tierHigh)
            && NumberAt(sheet, TIER_COL, 2, m.tierMedium)
  {
    hide Itoa;
    var sheet, row := SheetOf(reports, m), MarksRow(m);
    assert sheet[1] == PlainCells(row);
    assert row[QUERIES_COL - 1] == Itoa(m.query) && row[BRANCH_COL - 1] == Itoa(m.branch);
    assert row[TPCALL_COL - 1] == Itoa(m.tpcall) && row[SCORE_COL - 1] == Itoa(m.tierHigh);
    assert row[TIER_COL - 1] == Itoa(m.tierMedium);
  }

  lemma ReportCells(reports: seq<Report>, m: Marks, k: nat)
    requires k < |reports|
    ensures var sheet, r, row := SheetOf(reports, m), reports[k], k + 4;
            && row <= |sheet| && |sheet[row - 1]| == COLUMNS
            && NumberAt(sheet, QUERIES_COL, row, r.facts.numQueries)
            && NumberAt(sheet, BRANCH_COL, row, r.facts.branchFactor)
            && NumberAt(sheet, TPCALL_COL, row, r.facts.tpCalls)
            && NumberAt(sheet, WEIGHT_COL, row, ExtWeight(r.externals))
            && NumberAt(sheet, DEP_COL, row, r.facts.tpDepScore)
            && NumberAt(sheet, FN_DEP_COL, row, r.facts.fnDepScore)
            && sheet[row - 1][SCORE_COL - 1] == Formula(ScoreFormula(row))
            && sheet[row - 1][TIER_COL - 1] == Formula(TierFormula(row))
            && sheet[row - 1][COLUMNS - 1] == Formula(TotalFormula(row))
  {
    hide Itoa, ScoreFormula, TierFormula, TotalFormula, ExtWeight, JoinOn, MarksRow, MarksLine;
    var sheet := SheetOf(reports, m);
    assert sheet[k + 3] == RowCells(reports[k], k + 4);
    hide SheetOf;
  }

  lemma EvalScore(sheet: Sheet, row: nat, m: Marks, f: Facts, weight: int, depth: nat)
    requires NumberAt(sheet, QUERIES_COL, 2, m.query) && NumberAt(sheet, QUERIES_COL, row, f.numQueries)
    requires NumberAt(sheet, BRANCH_COL, 2, m.branch) && NumberAt(sheet, BRANCH_COL, row, f.branchFactor)
    requires NumberAt(sheet, TPCALL_COL, 2, m.tpcall) && NumberAt(sheet, TPCALL_COL, row, f.tpCalls)
    requires NumberAt(sheet, WEIGHT_COL, row, weight)
    ensures Eval(sheet, ScoreFormula(row), depth) ==
            Num(m.query * f.numQueries + m.branch * f.branchFactor + m.tpcall * f.tpCalls + weight)
  {
    hide NumberAt, ColLetters, Eval;
    EvalProduct(sheet, QUERIES_COL, row, m.query, f.numQueries, depth);
    EvalProduct(sheet, BRANCH_COL, row, m.branch, f.branchFactor, depth);
    EvalProduct(sheet, TPCALL_COL, row, m.tpcall, f.tpCalls, depth);
    CellNumber(sheet, WEIGHT_COL, row, false, weight, depth);
    var q, b := Mul(MarkAt(QUERIES_COL), At(QUERIES_COL, row)), Mul(MarkAt(BRANCH_COL), At(BRANCH_COL, row));
    var t := Mul(MarkAt(TPCALL_COL), At(TPCALL_COL, row));
    EvalSum(sheet, q, b, m.query * f.numQueries, m.branch * f.branchFactor, depth);
    EvalSum(sheet, Add(q, b), t, m.query * f.numQueries + m.branch * f.branchFactor, m.tpcall * f.tpCalls, depth);
    EvalSum(sheet, Add(Add(q, b), t), At(WEIGHT_COL, row),
            m.query * f.numQueries + m.branch * f.branchFactor + m.tpcall * f.tpCalls, weight, depth);
  }

  lemma EvalProduct(sheet: Sheet, col: nat, row: nat, mark: int, n: int, depth: nat)
    requires NumberAt(sheet, col, 2, mark) && NumberAt(sheet, col, row, n)
    ensures Eval(sheet, Mul(MarkAt(col), At(col, row)), depth) == Num(mark * n)
  {
    CellNumber(sheet, col, 2, true, mark, depth);
    CellNumber(sheet, col, row, false, n, depth);
    hide NumberAt, ColLetters;
  }

  lemma EvalSum(sheet: Sheet, a: Expr, b: Expr, x: int, y: int, depth: nat)
    requires Eval(sheet, a, depth) == Num(x) && Eval(sheet, b, depth) == Num(y)
    ensures Eval(sheet, Add(a, b), depth) == Num(x + y)
  {
  }

  lemma EvalTier(sheet: Sheet, row: nat, m: Marks, score: int, depth: nat)
    requires Eval(sheet, At(SCORE_COL, row), depth) == Num(score)
    requires NumberAt(sheet, SCORE_COL, 2, m.tierHigh) && NumberAt(sheet, TIER_COL, 2, m.tierMedium)
    ensures Eval(sheet, TierFormula(row), depth) == Txt(Tier(score, m))
  {
    CellNumber(sheet, SCORE_COL, 2, true, m.tierHigh, depth);
    CellNumber(sheet, TIER_COL, 2, true, m.tierMedium, depth);
    EvalStr(sheet, "LOW", depth);
    hide NumberAt, ColLetters, Eval;
    var inner := IfAtLeast(At(SCORE_COL, row), MarkAt(TIER_COL), Str("MEDIUM"), Str("LOW"));
    EvalIf(sheet, At(SCORE_COL, row), MarkAt(TIER_COL), "MEDIUM", Str("LOW"), score, m.tierMedium, depth);
    EvalIf(sheet, At(SCORE_COL, row), MarkAt(SCORE_COL), "HIGH", inner, score, m.tierHigh, depth);
  }

  lemma EvalStr(sheet: Sheet, text: string, depth: nat)
    ensures Eval(sheet, Str(text), depth) == Txt(text)
  {
  }

  lemma EvalIf(sheet: Sheet, v: Expr, b: Expr, yes: string, no: Expr, x: int, z: int, depth: nat)
    requires Eval(sheet, v, depth) == Num(x) && Eval(sheet, b, depth) == Num(z)
    ensures Eval(sheet, IfAtLeast(v, b, Str(yes), no), depth) == if x >= z then Txt(yes) else Eval(sheet, no, depth)
  {
  }

  /** A reference to a formula cell has that formula's value. */
  lemma FormulaCell(sheet: Sheet, col: nat, row: nat, e: Expr, depth: nat, v: SheetValue)
    requires 1 <= row <= |sheet| && 1 <= col <= |sheet[row - 1]| && sheet[row - 1][col - 1] == Formula(e)
    requires Eval(sheet, e, depth) == v
    ensures Eval(sheet, At(col, row), depth + 1) == v
  {
    ColumnOfLetters(col);
    hide ColIndex, ColLetters;
  }

  lemma ScoreOnSheet(reports: seq<Report>, m: Marks, k: nat)
    requires k < |reports|
    ensures Eval(SheetOf(reports, m), At(SCORE_COL, k + 4), 1) == Num(Score(reports[k].facts, reports[k].externals, m))
  {
    var sheet, r, row := SheetOf(reports, m), reports[k], k + 4;
    MarksCells(reports, m);
    ReportCells(reports, m, k);
    hide SheetOf, Eval, NumberAt, ScoreFormula, ExtWeight, RowCells, At;
    EvalScore(sheet, row, m, r.facts, ExtWeight(r.externals), 0);
    FormulaCell(sheet, SCORE_COL, row, ScoreFormula(row), 0, Num(Score(r.facts, r.externals, m)));
  }

  lemma TierOnSheet(reports: seq<Report>, m: Marks, k: nat)
    requires k < |reports|
    ensures Eval(SheetOf(reports, m), At(TIER_COL, k + 4), 2) == Txt(Tier(Score(reports[k].facts, reports[k].externals, m), m))
  {
    var sheet, row := SheetOf(reports, m), k + 4;
    var score := Score(reports[k].facts, reports[k].externals, m);
    ScoreOnSheet(reports, m, k);
    MarksCells(reports, m);
    ReportCells(reports, m, k);
    hide SheetOf, Eval, NumberAt, TierFormula, Tier, Score;
    EvalTier(sheet, row, m, score, 1);
    FormulaCell(sheet, TIER_COL, row, TierFormula(row), 1, Txt(Tier(score, m)));
  }

  lemma TotalOnSheet(reports: seq<Report>, m: Marks, k: nat)
    requires k < |reports|
    ensures var r := reports[k];
            Eval(SheetOf(reports, m), At(COLUMNS, k + 4), 2) ==
            Num(Score(r.facts, r.externals, m) + r.facts.tpDepScore + r.facts.fnDepScore)
  {
    var sheet, f, row := SheetOf(reports, m), reports[k].facts, k + 4;
    var score := Score(f, reports[k].externals, m);
    ScoreOnSheet(reports, m, k);
    ReportCells(reports, m, k);
    hide SheetOf, Eval, NumberAt, ColLetters, Score, RowCells;
    CellNumber(sheet, DEP_COL, row, false, f.tpDepScore, 1);
    CellNumber(sheet, FN_DEP_COL, row, false, f.fnDepScore, 1);
    EvalSum(sheet, At(SCORE_COL, row), At(DEP_COL, row), score, f.tpDepScore, 1);
    EvalSum(sheet, Add(At(SCORE_COL, row), At(DEP_COL, row)), At(FN_DEP_COL, row), score + f.tpDepScore, f.fnDepScore, 1);
    FormulaCell(sheet, COLUMNS, row, TotalFormula(row), 1, Num(score + f.tpDepScore + f.fnDepScore));
  }

  function Reports(facts: seq<Facts>, c: Corpus, opts: Scoring): seq<Report> {
    seq(|facts|, i requires 0 <= i < |facts| => Analyze(facts[i], c, opts))
  }

  /** A spreadsheet shows the very scores and tiers the analysis computed. */
  lemma FormulasAgree(facts: seq<Facts>, c: Corpus, opts: Scoring, k: nat)
    requires k < |facts|
    ensures var reports := Reports(facts, c, opts);
            var sheet, r := SheetOf(reports, opts.marks), reports[k];
            && Eval(sheet, At(SCORE_COL, k + 4), 1) == Num(r.score)
            && Eval(sheet, At(TIER_COL, k + 4), 2) == Txt(r.tier)
            && Eval(sheet, At(COLUMNS, k + 4), 2) == Num(r.score + r.facts.tpDepScore + r.facts.fnDepScore)
  {
    hide Eval, SheetOf;
    var reports := Reports(facts, c, opts);
    ScoreOnSheet(reports, opts.marks, k);
    TierOnSheet(reports, opts.marks, k);
    TotalOnSheet(reports, opts.marks, k);
  }

  // ---------------------------------------------------------------- writing

  method WriteFns(fns: seq<ExternalFn>) returns (cell: string, weight: int)
    ensures cell == JoinOn(ShowFns(fns), ';') && weight == ExtWeight(fns)
  {
    var cells: seq<string> := [];
    weight := 0;
    for i := 0 to |fns|
      invariant cells == ShowFns(fns[..i]) && weight == ExtWeight(fns[..i])
    {
      FnsNext(fns, i);
      hide *;
      cells := cells + [ShowFn(fns[i])];
      weight := weight + fns[i].weight;
    }
    assert fns[..|fns|] == fns;
    cell := JoinOn(cells, ';');
  }

  lemma FnsNext(fns: seq<ExternalFn>, i: nat)
    requires i < |fns|
    ensures ShowFns(fns[..i + 1]) == ShowFns(fns[..i]) + [ShowFn(fns[i])]
    ensures ExtWeight(fns[..i + 1]) == ExtWeight(fns[..i]) + fns[i].weight
  {
    hide ShowFn;
    assert fns[..i + 1][..i] == fns[..i];
  }

  method WriteRow(r: Report, row: nat) returns (rec: seq<string>)
    ensures rec == ShowCells(RowCells(r, row))
  {
    hide Itoa, JoinOn, ShowExpr, ScoreFormula, TierFormula, TotalFormula;
    var fns, weight := WriteFns(r.externals);
    var f := r.facts;
    rec := [f.file, Itoa(f.numLines), Itoa(f.numQueries), Itoa(f.branchFactor), Itoa(f.branchCount),
            if f.tpCalls > 0 then "true" else "false", Itoa(f.tpCalls), Itoa(f.fnLocal), Itoa(|r.externals|), fns,
            Itoa(weight), Itoa(f.selects), Itoa(f.inserts), Itoa(f.updates), Itoa(f.deletes), Itoa(f.merges),
            ShowCell(Formula(ScoreFormula(row))), ShowCell(Formula(TierFormula(row))), f.reasons, f.tpDeps,
            Itoa(f.tpDepScore), Itoa(f.tpUnresolved), f.fnFileDeps, Itoa(f.fnDepScore),
            ShowCell(Formula(TotalFormula(row)))];
  }

  method WriteCsv(reports: seq<Report>, m: Marks) returns (records: seq<seq<string>>)
    ensures records == Records(SheetOf(reports, m))
  {
    hide RowCells, MarksLine, MarksRow;
    records := [[MarksLine(m)], MarksRow(m), HEADER];
    assert ShowCells(PlainCells([MarksLine(m)])) == [MarksLine(m)];
    assert ShowCells(PlainCells(MarksRow(m))) == MarksRow(m);
    assert ShowCells(PlainCells(HEADER)) == HEADER;
    for i := 0 to |reports|
      invariant records == Records(SheetOf(reports[..i], m))
    {
      var rec := WriteRow(reports[i], i + 4);
      SheetNext(reports, m, i);
      records := records + [rec];
    }
    assert reports[..|reports|] == reports;
  }

  lemma SheetNext(reports: seq<Report>, m: Marks, i: nat)
    requires i < |reports|
    ensures Records(SheetOf(reports[..i + 1], m)) == Records(SheetOf(reports[..i], m)) + [ShowCells(RowCells(reports[i], i + 4))]
  {
    hide RowCells, ShowCells, MarksLine, MarksRow;
    var s, t := SheetOf(reports[..i], m), SheetOf(reports[..i + 1], m);
    assert t == s + [RowCells(reports[i], i + 4)];
  }

  // ---------------------------------------------------------------- loading

  datatype LoadError = EmptyFile | MalformedMark | BadMarkValue | UnknownMark | BadMarkCell | MalformedFn | BadWeight | NoFnColumn

  datatype Res<T> = Ok(value: T) | Err(error: LoadError)

  function SetMark(m: Marks, key: string, n: int): Option<Marks> {
    if key == "query" then Some(m.(query := n))
    else if key == "simple" then Some(m.(simple := n))
    else if key == "complex" then Some(m.(complexFn := n))
    else if key == "tpcall" then Some(m.(tpcall := n))
    else if key == "branch" then Some(m.(branch := n))
    else if key == "tier_high" then Some(m.(tierHigh := n))
    else if key == "tier_medium" then Some(m.(tierMedium := n))
    else None
  }

  /** The mark whose cell stands over a column. */
  function MarkOver(column: string): Option<string> {
    if column == "num_queries" then Some("query")
    else if column == "branching_factor" then Some("branch")
    else if column == "tpcall_count" then Some("tpcall")
    else if column == "external_fns" then Some("simple")
    else if column == "external_weight" then Some("complex")
    else if column == "complexity_score" then Some("tier_high")
    else if column == "complexity" then Some("tier_medium")
    else None
  }

  function ApplyPair(m: Marks, kv: string): Res<Marks> {
    var e := NextSep(kv, '=', 0);
    if e == |kv| then Err(MalformedMark)
    else
      match Atoi(kv[e + 1..])
      case None => Err(BadMarkValue)
      case Some(n) =>
        (match SetMark(m, kv[..e], n)
         case None => Err(UnknownMark)
         case Some(m') => Ok(m'))
  }

  function ApplyPairs(m: Marks, kvs: seq<string>): Res<Marks> {
    if kvs == [] then Ok(m)
    else
      match ApplyPairs(m, kvs[..|kvs| - 1])
      case Err(e) => Err(e)
      case Ok(m') => ApplyPair(m', kvs[|kvs| - 1])
  }

  const LINE_HEAD := "tuxgo marks:"

  function Uncommented(field: string): string {
    var t := Trim(field);
    Trim(if HasAt(t, 0, "#") then t[1..] else t)
  }

  function ApplyMarksLine(m: Marks, field: string): Res<Marks> {
    var rest := Uncommented(field);
    if !HasAt(rest, 0, LINE_HEAD) then Ok(m) else ApplyPairs(m, Words(Trim(rest[|LINE_HEAD|..])))
  }

  function ApplyCell(m: Marks, column: string, cell: string): Res<Marks> {
    match MarkOver(column)
    case None => Ok(m)
    case Some(key) =>
      if Trim(cell) == "" then Ok(m)
      else
        match Atoi(Trim(cell))
        case None => Err(BadMarkCell)
        case Some(n) => match SetMark(m, key, n) case Some(m') => Ok(m') case None => Ok(m)
  }

  function ApplyCells(m: Marks, row: seq<string>, header: seq<string>, k: nat): Res<Marks>
    requires k <= |row| && k <= |header|
  {
    if k == 0 then Ok(m)
    else
      match ApplyCells(m, row, header, k - 1)
      case Err(e) => Err(e)
      case Ok(m') => ApplyCell(m', header[k - 1], row[k - 1])
  }

  function ApplyMarksRow(m: Marks, row: seq<string>, header: seq<string>): Res<Marks> {
    if row == [] || |row| != |header| || HasAt(Trim(row[0]), 0, "#") then Ok(m)
    else ApplyCells(m, row, header, |header|)
  }

  function ApplyTuple(w: map<string, int>, raw: string): Res<map<string, int>> {
    var tuple := Trim(raw);
    if tuple == "" then Ok(w)
    else
      var parts := SplitOn(tuple, ':');
      if |parts| < 2 || |parts| > 3 || Trim(parts[0]) == "" then Err(MalformedFn)
      else if |parts| == 3 && Trim(parts[2]) != "" then
        match Atoi(Trim(parts[2]))
        case None => Err(BadWeight)
        case Some(n) => Ok(w[Trim(parts[0]) := n])
      else Ok(w)
  }

  function ApplyTuples(w: map<string, int>, tuples: seq<string>): Res<map<string, int>> {
    if tuples == [] then Ok(w)
    else
      match ApplyTuples(w, tuples[..|tuples| - 1])
      case Err(e) => Err(e)
      case Ok(w') => ApplyTuple(w', tuples[|tuples| - 1])
  }

  /** First column headed `external_fns`, or the column known so far. */
  function FnColumn(rec: seq<string>, col: Option<nat>, i: nat): Option<nat>
    requires i <= |rec|
    decreases |rec| - i
  {
    if i == |rec| then col else if rec[i] == "external_fns" then Some(i) else FnColumn(rec, col, i + 1)
  }

  datatype Loading = Loading(marks: Marks, weights: map<string, int>, col: Option<nat>, prev: seq<string>)

  function LoadRecord(st: Loading, rec: seq<string>): Res<Loading> {
    if rec == [] then Ok(st)
    else
      var first := Trim(rec[0]);
      if HasAt(first, 0, "#") then
        match ApplyMarksLine(st.marks, first)
        case Err(e) => Err(e)
        case Ok(m) => Ok(st.(marks := m, prev := rec))
      else if first == "file" then
        match ApplyMarksRow(st.marks, st.prev, rec)
        case Err(e) => Err(e)
        case Ok(m) => Ok(st.(marks := m, col := FnColumn(rec, st.col, 0)))
      else if st.col.None? || |rec| <= st.col.value then Ok(st.(prev := rec))
      else
        match ApplyTuples(st.weights, SplitOn(rec[st.col.value], ';'))
        case Err(e) => Err(e)
        case Ok(w) => Ok(st.(weights := w, prev := rec))
  }

  function LoadRecords(st: Loading, records: seq<seq<string>>): Res<Loading> {
    if records == [] then Ok(st)
    else
      match LoadRecords(st, records[..|records| - 1])
      case Err(e) => Err(e)
      case Ok(st') => LoadRecord(st', records[|records| - 1])
  }

  function LoadOptions(defaults: Marks, records: seq<seq<string>>): Res<Scoring> {
    if records == [] then Err(EmptyFile)
    else
      match LoadRecords(Loading(defaults, map[], None, []), records)
      case Err(e) => Err(e)
      case Ok(st) => if st.col.None? then Err(NoFnColumn) else Ok(Scoring(st.marks, st.weights))
  }

  method LoadPairs(m: Marks, kvs: seq<string>) returns (r: Res<Marks>)
    ensures r == ApplyPairs(m, kvs)
  {
    r := Ok(m);
    for i := 0 to |kvs|
      invariant r == ApplyPairs(m, kvs[..i]) && r.Ok?
    {
      hide ApplyPair;
      assert kvs[..i + 1][..i] == kvs[..i];
      r := ApplyPair(r.value, kvs[i]);
      if r.Err? {
        PairsFail(m, kvs, i + 1);
        return;
      }
    }
    assert kvs[..|kvs|] == kvs;
  }

  method LoadMarksLine(m: Marks, field: string) returns (r: Res<Marks>)
    ensures r == ApplyMarksLine(m, field)
  {
    var rest := Uncommented(field);
    if !HasAt(rest, 0, LINE_HEAD) {
      return Ok(m);
    }
    r := LoadPairs(m, Words(Trim(rest[|LINE_HEAD|..])));
  }

  lemma {:induction false} PairsFail(m: Marks, kvs: seq<string>, i: nat)
    requires i <= |kvs| && ApplyPairs(m, kvs[..i]).Err?
    ensures ApplyPairs(m, kvs) == ApplyPairs(m, kvs[..i])
    decreases |kvs|
  {
    hide ApplyPair;
    if i < |kvs| {
      assert kvs[..|kvs| - 1][..i] == kvs[..i];
      PairsFail(m, kvs[..|kvs| - 1], i);
    } else {
      assert kvs[..i] == kvs;
    }
  }

  method LoadMarksRow(m: Marks, row: seq<string>, header: seq<string>) returns (r: Res<Marks>)
    ensures r == ApplyMarksRow(m, row, header)
  {
    r := Ok(m);
    if |row| == 0 || |row| != |header| || HasAt(Trim(row[0]), 0, "#") {
      return;
    }
    for k := 0 to |header|
      invariant r == ApplyCells(m, row, header, k) && r.Ok?
    {
      hide ApplyCell;
      r := ApplyCell(r.value, header[k], row[k]);
      if r.Err? {
        CellsFail(m, row, header, k + 1, |header|);
        return;
      }
    }
  }

  lemma {:induction false} CellsFail(m: Marks, row: seq<string>, header: seq<string>, k: nat, n: nat)
    requires k <= n <= |row| && n <= |header| && ApplyCells(m, row, header, k).Err?
    ensures ApplyCells(m, row, header, n) == ApplyCells(m, row, header, k)
    decreases n
  {
    hide ApplyCell;
    if k < n {
      CellsFail(m, row, header, k, n - 1);
    }
  }

  method LoadTuples(w: map<string, int>, cell: string) returns (r: Res<map<string, int>>)
    ensures r == ApplyTuples(w, SplitOn(cell, ';'))
  {
    var tuples := SplitOn(cell, ';');
    r := Ok(w);
    for i := 0 to |tuples|
      invariant r == ApplyTuples(w, tuples[..i]) && r.Ok?
    {
      hide ApplyTuple;
      assert tuples[..i + 1][..i] == tuples[..i];
      r := ApplyTuple(r.value, tuples[i]);
      if r.Err? {
        TuplesFail(w, tuples, i + 1);
        return;
      }
    }
    assert tuples[..|tuples|] == tuples;
  }

  lemma {:induction false} TuplesFail(w: map<string, int>, tuples: seq<string>, i: nat)
    requires i <= |tuples| && ApplyTuples(w, tuples[..i]).Err?
    ensures ApplyTuples(w, tuples) == ApplyTuples(w, tuples[..i])
    decreases |tuples|
  {
    hide ApplyTuple;
    if i < |tuples| {
      assert tuples[..|tuples| - 1][..i] == tuples[..i];
      TuplesFail(w, tuples[..|tuples| - 1], i);
    } else {
      assert tuples[..i] == tuples;
    }
  }

  /** One record: a comment, a header, or a data row. */
  method LoadOne(st: Loading, rec: seq<string>) returns (r: Res<Loading>)
    ensures r == LoadRecord(st, rec)
  {
    if |rec| == 0 {
      return Ok(st);
    }
    var first := Trim(rec[0]);
    if HasAt(first, 0, "#") {
      var m := LoadMarksLine(st.marks, first);
      return if m.Err? then Err(m.error) else Ok(st.(marks := m.value, prev := rec));
    }
    if first == "file" {
      var m := LoadMarksRow(st.marks, st.prev, rec);
      return if m.Err? then Err(m.error) else Ok(st.(marks := m.value, col := FnColumn(rec, st.col, 0)));
    }
    if st.col.None? || |rec| <= st.col.value {
      return Ok(st.(prev := rec));
    }
    var w := LoadTuples(st.weights, rec[st.col.value]);
    return if w.Err? then Err(w.error) else Ok(st.(weights := w.value, prev := rec));
  }

  method LoadOptionsCsv(defaults: Marks, records: seq<seq<string>>) returns (r: Res<Scoring>)
    ensures r == LoadOptions(defaults, records)
  {
    if |records| == 0 {
      return Err(EmptyFile);
    }
    var start := Loading(defaults, map[], None, []);
    var st: Res<Loading> := Ok(start);
    for i := 0 to |records|
      invariant st == LoadRecords(start, records[..i]) && st.Ok?
    {
      hide LoadRecord;
      assert records[..i + 1][..i] == records[..i];
      st := LoadOne(st.value, records[i]);
      if st.Err? {
        RecordsFail(start, records, i + 1);
        return Err(st.error);
      }
    }
    assert records[..|records|] == records;
    return if st.value.col.None? then Err(NoFnColumn) else Ok(Scoring(st.value.marks, st.value.weights));
  }

  lemma {:induction false} RecordsFail(st: Loading, records: seq<seq<string>>, i: nat)
    requires i <= |records| && LoadRecords(st, records[..i]).Err?
    ensures LoadRecords(st, records) == LoadRecords(st, records[..i])
    decreases |records|
  {
    hide LoadRecord;
    if i < |records| {
      assert records[..|records| - 1][..i] == records[..i];
      RecordsFail(st, records[..|records| - 1], i);
    } else {
      assert records[..i] == records;
    }
  }

  // ---------------------------------------------------------------- what was written loads back

  lemma ItoaWord(n: int)
    ensures IsWord(Itoa(n)) && Tight(Itoa(n)) && Without(Itoa(n), '=') && Without(Itoa(n), ':') && Without(Itoa(n), ';')
  {
    ItoaShape(n);
    hide Itoa;
  }

  lemma PairApplied(m: Marks, key: string, n: int)
    requires Without(key, '=') && SetMark(m, key, n).Some?
    ensures ApplyPair(m, key + "=" + Itoa(n)) == Ok(SetMark(m, key, n).value)
  {
    hide Itoa, Atoi;
    var kv := key + "=" + Itoa(n);
    assert forall j :: 0 <= j < |key| ==> kv[j] == key[j];
    assert kv[|key|] == '=';
    assert NextSep(kv, '=', 0) == |key|;
    assert kv[..|key|] == key && kv[|key| + 1..] == Itoa(n);
    AtoiItoa(n);
  }

  lemma PairStep(m0: Marks, kvs: seq<string>, k: nat, m: Marks, key: string, n: int)
    requires k < |kvs| && ApplyPairs(m0, kvs[..k]) == Ok(m) && kvs[k] == key + "=" + Itoa(n)
    requires Without(key, '=') && SetMark(m, key, n).Some?
    ensures ApplyPairs(m0, kvs[..k + 1]) == Ok(SetMark(m, key, n).value)
  {
    hide ApplyPair, SetMark, Itoa, Without;
    PairApplied(m, key, n);
    NextPair(m0, kvs, k);
  }

  lemma NextPair(m0: Marks, kvs: seq<string>, k: nat)
    requires k < |kvs| && ApplyPairs(m0, kvs[..k]).Ok?
    ensures ApplyPairs(m0, kvs[..k + 1]) == ApplyPair(ApplyPairs(m0, kvs[..k]).value, kvs[k])
  {
    hide ApplyPair;
    assert kvs[..k + 1][..k] == kvs[..k];
  }

  lemma PairsApplied(m0: Marks, m: Marks)
    ensures ApplyPairs(m0, MarkPairs(m)) == Ok(m)
  {
    hide ApplyPairs, Itoa, MarkPairs;
    var p := MarkPairs(m);
    PairTexts(m);
    FirstPairs(m0, p, m);
    LastPairs(m0, p, m0.(query := m.query, simple := m.simple, complexFn := m.complexFn), m);
  }

  lemma MarkKeys(m: Marks, n: int)
    ensures SetMark(m, "query", n) == Some(m.(query := n)) && SetMark(m, "simple", n) == Some(m.(simple := n))
    ensures SetMark(m, "complex", n) == Some(m.(complexFn := n)) && SetMark(m, "tpcall", n) == Some(m.(tpcall := n))
    ensures Without("query", '=') && Without("simple", '=') && Without("complex", '=') && Without("tpcall", '=')
  {
  }

  lemma LastKeys(m: Marks, n: int)
    ensures SetMark(m, "branch", n) == Some(m.(branch := n)) && SetMark(m, "tier_high", n) == Some(m.(tierHigh := n))
    ensures SetMark(m, "tier_medium", n) == Some(m.(tierMedium := n))
    ensures Without("branch", '=') && Without("tier_high", '=') && Without("tier_medium", '=')
  {
  }

  lemma NoPairs(m0: Marks, p: seq<string>)
    ensures ApplyPairs(m0, p[..0]) == Ok(m0)
  {
  }

  lemma FirstPairs(m0: Marks, p: seq<string>, m: Marks)
    requires |p| == 7 && p[0] == "query" + "=" + Itoa(m.query)
    requires p[1] == "simple" + "=" + Itoa(m.simple) && p[2] == "complex" + "=" + Itoa(m.complexFn)
    ensures ApplyPairs(m0, p[..3]) == Ok(m0.(query := m.query, simple := m.simple, complexFn := m.complexFn))
  {
    NoPairs(m0, p);
    hide *;
    var m1 := m0.(query := m.query);
    var m2 := m1.(simple := m.simple);
    MarkKeys(m0, m.query);
    MarkKeys(m1, m.simple);
    MarkKeys(m2, m.complexFn);
    PairStep(m0, p, 0, m0, "query", m.query);
    PairStep(m0, p, 1, m1, "simple", m.simple);
    PairStep(m0, p, 2, m2, "complex", m.complexFn);
  }

  lemma LastPairs(m0: Marks, p: seq<string>, m3: Marks, m: Marks)
    requires |p| == 7 && ApplyPairs(m0, p[..3]) == Ok(m3) && m3 == Marks(m.query, m.simple, m.complexFn, m3.tpcall, m3.branch, m3.tierHigh, m3.tierMedium)
    requires p[3] == "tpcall" + "=" + Itoa(m.tpcall) && p[4] == "branch" + "=" + Itoa(m.branch)
    requires p[5] == "tier_high" + "=" + Itoa(m.tierHigh) && p[6] == "tier_medium" + "=" + Itoa(m.tierMedium)
    ensures ApplyPairs(m0, p) == Ok(m)
  {
    hide *;
    var m4 := m3.(tpcall := m.tpcall);
    var m5 := m4.(branch := m.branch);
    var m6 := m5.(tierHigh := m.tierHigh);
    MarkKeys(m3, m.tpcall);
    LastKeys(m4, m.branch);
    LastKeys(m5, m.tierHigh);
    LastKeys(m6, m.tierMedium);
    PairStep(m0, p, 3, m3, "tpcall", m.tpcall);
    PairStep(m0, p, 4, m4, "branch", m.branch);
    PairStep(m0, p, 5, m5, "tier_high", m.tierHigh);
    PairStep(m0, p, 6, m6, "tier_medium", m.tierMedium);
    assert p[..7] == p;
  }

  lemma PairTexts(m: Marks)
    ensures var p := MarkPairs(m);
            && |p| == 7 && p[0] == "query" + "=" + Itoa(m.query) && p[1] == "simple" + "=" + Itoa(m.simple)
            && p[2] == "complex" + "=" + Itoa(m.complexFn) && p[3] == "tpcall" + "=" + Itoa(m.tpcall)
            && p[4] == "branch" + "=" + Itoa(m.branch) && p[5] == "tier_high" + "=" + Itoa(m.tierHigh)
            && p[6] == "tier_medium" + "=" + Itoa(m.tierMedium)
  {
    hide Itoa;
    assert "query" + "=" == "query=" && "simple" + "=" == "simple=" && "complex" + "=" == "complex=" && "tpcall" + "=" == "tpcall=";
    assert "branch" + "=" == "branch=" && "tier_high" + "=" == "tier_high=" && "tier_medium" + "=" == "tier_medium=";
  }

  lemma PairsAreWords(m: Marks)
    ensures forall k :: 0 <= k < |MarkPairs(m)| ==> IsWord(MarkPairs(m)[k])
  {
    ItoaWord(m.query);
    ItoaWord(m.simple);
    ItoaWord(m.complexFn);
    ItoaWord(m.tpcall);
    ItoaWord(m.branch);
    ItoaWord(m.tierHigh);
    ItoaWord(m.tierMedium);
    hide Itoa;
  }

  /** Words joined by blanks start and end with a word. */
  lemma {:induction false} JoinedTight(words: seq<string>)
    requires words != [] && forall k :: 0 <= k < |words| ==> IsWord(words[k])
    ensures JoinOn(words, ' ') != "" && Tight(JoinOn(words, ' '))
  {
    assert IsWord(words[0]);
    if |words| > 1 {
      JoinedTight(words[1..]);
    }
  }

  /** Without its comment sign and the white space around it, a marks line starts with its head. */
  lemma LineUncommented(body: string)
    requires body != "" && Tight(body)
    ensures var line := "# tuxgo marks: " + body;
            Trim(line) == line && HasAt(line, 0, "#") && Uncommented(line) == LINE_HEAD + (" " + body)
  {
    var line, head := "# tuxgo marks: " + body, LINE_HEAD + (" " + body);
    assert line[|line| - 1] == body[|body| - 1] && line[0] == '#';
    TrimNone(line);
    assert "# tuxgo marks: " == "# " + LINE_HEAD + " ";
    assert line[1..] == " " + head + "";
    assert head[|head| - 1] == body[|body| - 1] && head[0] == 't';
    TrimOf(" ", head, "");
  }

  lemma HeadDropped(body: string)
    requires body != "" && Tight(body)
    ensures var rest := LINE_HEAD + (" " + body);
            HasAt(rest, 0, LINE_HEAD) && Trim(rest[|LINE_HEAD|..]) == body
  {
    var rest := LINE_HEAD + (" " + body);
    assert rest[|LINE_HEAD|..] == " " + body + "";
    TrimOf(" ", body, "");
  }

  /** The marks line carries all marks. */
  lemma MarksLineLoads(m0: Marks, m: Marks)
    ensures HasAt(Trim(MarksLine(m)), 0, "#") && ApplyMarksLine(m0, Trim(MarksLine(m))) == Ok(m)
  {
    var body := JoinOn(MarkPairs(m), ' ');
    PairsAreWords(m);
    JoinedTight(MarkPairs(m));
    WordsJoined(MarkPairs(m));
    PairsApplied(m0, m);
    hide MarkPairs, JoinOn, Words, ApplyPairs, HasAt, Trim, Tight, Uncommented;
    LineUncommented(body);
    HeadDropped(body);
  }

  /** Which mark stands over each column of the header. */
  lemma MarkColumns(i: nat)
    requires i < COLUMNS
    ensures MarkOver(HEADER[i]) ==
            if i == 2 then Some("query") else if i == 3 then Some("branch") else if i == 6 then Some("tpcall")
            else if i == 9 then Some("simple") else if i == 10 then Some("complex") else if i == 16 then Some("tier_high")
            else if i == 17 then Some("tier_medium") else None
  {
    assert HEADER[4][0] == 'b' && HEADER[0][0] == 'f' && HEADER[15][0] == 'm';
  }

  function MarkOf(m: Marks, key: string): int {
    if key == "query" then m.query
    else if key == "simple" then m.simple
    else if key == "complex" then m.complexFn
    else if key == "tpcall" then m.tpcall
    else if key == "branch" then m.branch
    else if key == "tier_high" then m.tierHigh
    else m.tierMedium
  }

  /** Every cell of the marks row under a mark's column is that mark. */
  lemma MarksRowCell(m: Marks, i: nat)
    requires i < COLUMNS
    ensures |MarksRow(m)| == |HEADER| == COLUMNS
    ensures MarkOver(HEADER[i]).Some? ==> MarksRow(m)[i] == Itoa(MarkOf(m, MarkOver(HEADER[i]).value))
  {
    hide Itoa;
    MarkColumns(i);
    hide MarkOver;
    if i == 2 {
      assert MarkOf(m, "query") == m.query;
    } else if i == 3 {
      assert MarkOf(m, "branch") == m.branch;
    } else if i == 6 {
      assert MarkOf(m, "tpcall") == m.tpcall;
    } else if i == 9 {
      assert MarkOf(m, "simple") == m.simple;
    } else if i == 10 {
      assert MarkOf(m, "complex") == m.complexFn;
    } else if i == 16 {
      assert MarkOf(m, "tier_high") == m.tierHigh;
    } else if i == 17 {
      assert MarkOf(m, "tier_medium") == m.tierMedium;
    }
  }

  lemma CellLoads(m0: Marks, column: string, n: int)
    requires MarkOver(column).Some?
    ensures SetMark(m0, MarkOver(column).value, n).Some?
    ensures ApplyCell(m0, column, Itoa(n)) == Ok(SetMark(m0, MarkOver(column).value, n).value)
  {
    ItoaWord(n);
    AtoiItoa(n);
    TrimNone(Itoa(n));
    hide Itoa, Atoi, Trim;
  }

  /** Marks after the first `k` cells of the marks row. */
  function MarksUpTo(m0: Marks, m: Marks, k: nat): Marks {
    Marks(if k > 2 then m.query else m0.query, if k > 9 then m.simple else m0.simple,
          if k > 10 then m.complexFn else m0.complexFn, if k > 6 then m.tpcall else m0.tpcall,
          if k > 3 then m.branch else m0.branch, if k > 16 then m.tierHigh else m0.tierHigh,
          if k > 17 then m.tierMedium else m0.tierMedium)
  }

  lemma CellStep(m0: Marks, m: Marks, i: nat)
    requires i < COLUMNS && |MarksRow(m)| == COLUMNS
    ensures ApplyCell(MarksUpTo(m0, m, i), HEADER[i], MarksRow(m)[i]) == Ok(MarksUpTo(m0, m, i + 1))
  {
    MarksRowCell(m, i);
    MarkColumns(i);
    var st := MarksUpTo(m0, m, i);
    if MarkOver(HEADER[i]).Some? {
      var key := MarkOver(HEADER[i]).value;
      CellLoads(st, HEADER[i], MarkOf(m, key));
      hide ApplyCell, MarkOver, MarksRow, Itoa;
      assert SetMark(st, key, MarkOf(m, key)) == Some(MarksUpTo(m0, m, i + 1));
    }
  }

  lemma {:induction false} CellsLoad(m0: Marks, m: Marks, k: nat)
    requires k <= COLUMNS && |MarksRow(m)| == COLUMNS
    ensures ApplyCells(m0, MarksRow(m), HEADER, k) == Ok(MarksUpTo(m0, m, k))
  {
    hide ApplyCell, MarksRow;
    if k > 0 {
      CellsLoad(m0, m, k - 1);
      CellStep(m0, m, k - 1);
    }
  }

  /** The marks cells carry all marks, whatever the comment line said. */
  lemma MarksRowLoads(m0: Marks, m: Marks)
    ensures ApplyMarksRow(m0, MarksRow(m), HEADER) == Ok(m)
  {
    MarksRowCell(m, 0);
    CellsLoad(m0, m, COLUMNS);
    assert Trim("") == "";
    assert MarksRow(m)[0] == "";
    hide ApplyCells, MarksRow;
  }

  // ---------------------------------------------------------------- weights

  predicate NamedFns(fns: seq<ExternalFn>) {
    forall k :: 0 <= k < |fns| ==> NameLike(fns[k].name)
  }

  lemma JoinThree(a: string, b: string, c: string, sep: char)
    ensures JoinOn([a, b, c], sep) == a + [sep] + b + [sep] + c
  {
    assert [a, b, c][1..] == [b, c] && [b, c][1..] == [c];
    assert JoinOn([b, c], sep) == b + [sep] + c;
    assert a + [sep] + (b + [sep] + c) == a + [sep] + b + [sep] + c;
  }

  lemma TupleParts(fn: ExternalFn)
    requires NameLike(fn.name)
    ensures SplitOn(ShowFn(fn), ':') == [fn.name, ShowClass(fn.cls), Itoa(fn.weight)]
    ensures Tight(ShowFn(fn)) && ShowFn(fn) != "" && Without(ShowFn(fn), ';')
  {
    var a, b, c := fn.name, ShowClass(fn.cls), Itoa(fn.weight);
    ItoaWord(fn.weight);
    assert Without(b, ':') && Without(b, ';');
    hide Itoa, ShowClass, JoinOn, SplitOn, Without, IsWord, Tight;
    JoinThree(a, b, c, ':');
    SplitJoinOn([a, b, c], ':');
  }

  lemma TupleLoads(w: map<string, int>, fn: ExternalFn)
    requires NameLike(fn.name)
    ensures ApplyTuple(w, ShowFn(fn)) == Ok(w[fn.name := fn.weight])
  {
    TupleParts(fn);
    ItoaWord(fn.weight);
    AtoiItoa(fn.weight);
    TrimNone(ShowFn(fn));
    TrimNone(fn.name);
    TrimNone(Itoa(fn.weight));
    hide Itoa, Atoi, Trim, ShowFn, SplitOn, Tight;
  }

  /** The weights after some external functions: the last of a name wins. */
  function AfterFns(w: map<string, int>, fns: seq<ExternalFn>): map<string, int> {
    if fns == [] then w
    else
      var last := fns[|fns| - 1];
      AfterFns(w, fns[..|fns| - 1])[last.name := last.weight]
  }

  lemma {:induction false} TuplesLoad(w: map<string, int>, fns: seq<ExternalFn>)
    requires NamedFns(fns)
    ensures ApplyTuples(w, ShowFns(fns)) == Ok(AfterFns(w, fns))
  {
    hide ApplyTuple, ShowFn;
    if fns != [] {
      var n := |fns| - 1;
      TuplesLoad(w, fns[..n]);
      assert ShowFns(fns)[..n] == ShowFns(fns[..n]);
      TupleLoads(AfterFns(w, fns[..n]), fns[n]);
    }
  }

  lemma FnCellLoads(w: map<string, int>, fns: seq<ExternalFn>)
    requires NamedFns(fns)
    ensures ApplyTuples(w, SplitOn(JoinOn(ShowFns(fns), ';'), ';')) == Ok(AfterFns(w, fns))
  {
    if fns == [] {
      assert JoinOn(ShowFns(fns), ';') == "" && SplitOn("", ';') == [""];
      assert Trim("") == "";
      assert [""][..0] == [] && ApplyTuples(w, [""]) == ApplyTuple(w, "");
    } else {
      TuplesLoad(w, fns);
      forall k | 0 <= k < |fns| ensures Without(ShowFns(fns)[k], ';') {
        TupleParts(fns[k]);
      }
      hide ShowFn, ApplyTuples;
      SplitJoinOn(ShowFns(fns), ';');
    }
  }

  // ---------------------------------------------------------------- rows

  /** The loader takes a row whose file name starts with a number sign for a comment. */
  predicate Commented(file: string) {
    HasAt(Trim(file), 0, "#")
  }

  /** A file name that is neither the header's first cell nor a marks line. */
  predicate TameFile(file: string) {
    Trim(file) != "file" && (Commented(file) ==> !HasAt(Uncommented(Trim(file)), 0, LINE_HEAD))
  }

  predicate Tame(facts: seq<Facts>) {
    forall k :: 0 <= k < |facts| ==> TameFile(facts[k].file)
  }

  predicate Named(facts: seq<Facts>) {
    forall k, j :: 0 <= k < |facts| && 0 <= j < |facts[k].externals| ==> NameLike(facts[k].externals[j])
  }

  function AfterReports(reports: seq<Report>): map<string, int> {
    if reports == [] then map[]
    else
      var last := reports[|reports| - 1];
      var w := AfterReports(reports[..|reports| - 1]);
      if Commented(last.facts.file) then w else AfterFns(w, last.externals)
  }

  /** What the loader knows after some rows. */
  ghost predicate LoadedAs(r: Res<Loading>, m: Marks, w: map<string, int>) {
    r.Ok? && r.value.marks == m && r.value.weights == w && r.value.col == Some(EXTERNALS_COL - 1)
  }

  lemma RowRecord(r: Report, row: nat)
    ensures var rec := ShowCells(RowCells(r, row));
            |rec| == COLUMNS && rec[0] == r.facts.file && rec[EXTERNALS_COL - 1] == JoinOn(ShowFns(r.externals), ';')
  {
    hide Itoa, JoinOn, ShowExpr, ScoreFormula, TierFormula, TotalFormula, ExtWeight;
  }

  lemma RowLoads(st: Loading, r: Report, row: nat)
    requires LoadedAs(Ok(st), st.marks, st.weights) && NamedFns(r.externals)
    requires TameFile(r.facts.file)
    ensures LoadedAs(LoadRecord(st, ShowCells(RowCells(r, row))), st.marks,
                     if Commented(r.facts.file) then st.weights else AfterFns(st.weights, r.externals))
  {
    RowRecord(r, row);
    hide RowCells, ShowCells, Trim, Uncommented, ApplyTuples, SplitOn, JoinOn, HasAt;
    FnCellLoads(st.weights, r.externals);
  }

  lemma LoadNext(st: Loading, records: seq<seq<string>>, rec: seq<string>)
    ensures LoadRecords(st, records + [rec]) ==
            match LoadRecords(st, records) case Err(e) => Err(e) case Ok(st') => LoadRecord(st', rec)
  {
    hide LoadRecord;
    assert (records + [rec])[..|records|] == records;
  }

  lemma LoadNothing(st: Loading)
    ensures LoadRecords(st, []) == Ok(st)
  {
  }

  lemma FnColumnOfHeader()
    ensures FnColumn(HEADER, None, 0) == Some(EXTERNALS_COL - 1)
  {
    var r := FnColumn(HEADER, None, 9);
    assert HEADER[9] == "external_fns" && r == Some(9);
    assert HEADER[8] != "external_fns" && HEADER[7] != "external_fns" && HEADER[6] != "external_fns";
    assert HEADER[5] != "external_fns" && HEADER[4][0] != 'e' && HEADER[3] != "external_fns";
    assert FnColumn(HEADER, None, 5) == r && FnColumn(HEADER, None, 2) == r;
  }

  /** The three records above the rows. */
  lemma ShellLoads(defaults: Marks, m: Marks)
    ensures var start := Loading(defaults, map[], None, []);
            LoadedAs(LoadRecords(start, [[MarksLine(m)], MarksRow(m), HEADER]), m, map[])
  {
    hide MarksLine, MarksRow, LoadRecord, LoadRecords, FnColumn;
    var start := Loading(defaults, map[], None, []);
    var st1, st2 := Loading(m, map[], None, [MarksLine(m)]), Loading(m, map[], None, MarksRow(m));
    LineRecord(start, m);
    CellsRecord(st1, m);
    HeaderRecord(st2, m);
    FnColumnOfHeader();
    ThreeLoads(start, [MarksLine(m)], MarksRow(m), HEADER);
  }

  lemma LineRecord(st: Loading, m: Marks)
    ensures LoadRecord(st, [MarksLine(m)]) == Ok(st.(marks := m, prev := [MarksLine(m)]))
  {
    MarksLineLoads(st.marks, m);
    hide MarksLine, ApplyMarksLine, ApplyMarksRow, FnColumn, Trim, ApplyTuples, SplitOn;
  }

  /** The cells above the header are no comment and no tuples: they wait for the header. */
  lemma CellsRecord(st: Loading, m: Marks)
    requires st.col == None
    ensures LoadRecord(st, MarksRow(m)) == Ok(st.(prev := MarksRow(m)))
  {
    assert Trim("") == "" && MarksRow(m)[0] == "";
    hide MarksRow, ApplyMarksLine, ApplyMarksRow, FnColumn, Trim, ApplyTuples, SplitOn;
  }

  lemma HeaderRecord(st: Loading, m: Marks)
    requires st.prev == MarksRow(m) && st.marks == m
    ensures LoadRecord(st, HEADER) == Ok(st.(col := FnColumn(HEADER, st.col, 0)))
  {
    MarksRowLoads(m, m);
    HeaderStarts();
    hide MarksRow, ApplyMarksRow, LoadRecord, Trim, HasAt;
    FileRecord(st, HEADER, m);
  }

  lemma HeaderStarts()
    ensures Trim(HEADER[0]) == "file" && !HasAt(Trim(HEADER[0]), 0, "#")
  {
    TrimNone("file");
    assert HEADER[0] == "file";
    hide Trim;
    assert "file"[0..1][0] == 'f' && "#"[0] == '#';
  }

  lemma FileRecord(st: Loading, rec: seq<string>, m: Marks)
    requires rec != [] && Trim(rec[0]) == "file" && !HasAt(Trim(rec[0]), 0, "#")
    requires ApplyMarksRow(st.marks, st.prev, rec) == Ok(m)
    ensures LoadRecord(st, rec) == Ok(st.(marks := m, col := FnColumn(rec, st.col, 0)))
  {
    hide HasAt, ApplyMarksLine, ApplyMarksRow, FnColumn, Trim, ApplyTuples, SplitOn;
  }

  lemma ThreeLoads(st: Loading, a: seq<string>, b: seq<string>, c: seq<string>)
    ensures LoadRecords(st, [a, b, c]) ==
            match LoadRecord(st, a)
            case Err(e) => Err(e)
            case Ok(st1) =>
              match LoadRecord(st1, b) case Err(e) => Err(e) case Ok(st2) => LoadRecord(st2, c)
  {
    hide LoadRecord, LoadRecords;
    LoadNothing(st);
    LoadNext(st, [], a);
    LoadNext(st, [a], b);
    LoadNext(st, [a, b], c);
    assert [] + [a] == [a] && [a] + [b] == [a, b] && [a, b] + [c] == [a, b, c];
  }

  /** Every row that is not taken for a comment loads its weights. */
  lemma {:induction false} RowsLoad(defaults: Marks, reports: seq<Report>, m: Marks)
    requires forall k :: 0 <= k < |reports| ==> NamedFns(reports[k].externals)
    requires forall k :: 0 <= k < |reports| ==> TameFile(reports[k].facts.file)
    ensures LoadedAs(LoadRecords(Loading(defaults, map[], None, []), Records(SheetOf(reports, m))), m, AfterReports(reports))
  {
    var start := Loading(defaults, map[], None, []);
    hide RowCells, ShowCells, NamedFns, Commented, TameFile, LoadRecord;
    if reports == [] {
      ShellLoads(defaults, m);
      ShellRecords(m);
    } else {
      var n := |reports| - 1;
      RowsLoad(defaults, reports[..n], m);
      SheetNext(reports, m, n);
      assert reports[..n + 1] == reports;
      var records := Records(SheetOf(reports[..n], m));
      LoadNext(start, records, ShowCells(RowCells(reports[n], n + 4)));
      RowLoads(LoadRecords(start, records).value, reports[n], n + 4);
    }
  }

  lemma ShellRecords(m: Marks)
    ensures Records(SheetOf([], m)) == [[MarksLine(m)], MarksRow(m), HEADER]
  {
    hide MarksLine, MarksRow;
    assert ShowCells(PlainCells([MarksLine(m)])) == [MarksLine(m)];
    assert ShowCells(PlainCells(MarksRow(m))) == MarksRow(m);
    assert ShowCells(PlainCells(HEADER)) == HEADER;
  }

  /** Some row the loader reads names the function. */
  predicate OnLoadableRow(facts: seq<Facts>, name: string) {
    exists k :: 0 <= k < |facts| && !Commented(facts[k].file) && name in facts[k].externals
  }

  lemma {:induction false} AfterFnsHas(w: map<string, int>, names: seq<string>, c: Corpus, opts: Scoring, name: string)
    ensures var w' := AfterFns(w, Classified(names, c, opts));
            && (name in w' <==> name in w || name in names)
            && (name in w' ==> w'[name] == if name in names then ClassifyExternal(name, c, opts).weight else w[name])
  {
    if names != [] {
      var n := |names| - 1;
      assert ClassifyExternal(names[n], c, opts).name == names[n];
      hide ClassifyExternal;
      assert Classified(names, c, opts)[..n] == Classified(names[..n], c, opts);
      AfterFnsHas(w, names[..n], c, opts, name);
      assert name in names <==> name in names[..n] || name == names[n];
    }
  }

  /** The loaded weights are the effective weights of the functions on loadable rows, and no others. */
  lemma {:induction false} LoadedWeights(facts: seq<Facts>, c: Corpus, opts: Scoring, name: string)
    ensures var w := AfterReports(Reports(facts, c, opts));
            && (name in w <==> OnLoadableRow(facts, name))
            && (name in w ==> w[name] == ClassifyExternal(name, c, opts).weight)
  {
    hide ClassifyExternal, Commented, AfterFns, Classified;
    if facts == [] {
      assert Reports(facts, c, opts) == [];
    } else {
      var n := |facts| - 1;
      LoadedWeights(facts[..n], c, opts, name);
      assert Reports(facts, c, opts)[..n] == Reports(facts[..n], c, opts);
      assert Reports(facts, c, opts)[n] == Analyze(facts[n], c, opts);
      AfterFnsHas(AfterReports(Reports(facts[..n], c, opts)), facts[n].externals, c, opts, name);
    }
  }

  /** Loading the CSV of an analysis recovers its marks, and the effective weight of every external function
      on a row that is not taken for a comment. */
  lemma LoadRecovers(defaults: Marks, facts: seq<Facts>, c: Corpus, opts: Scoring)
    requires Tame(facts) && Named(facts)
    ensures LoadOptions(defaults, Records(SheetOf(Reports(facts, c, opts), opts.marks))) ==
            Ok(Scoring(opts.marks, AfterReports(Reports(facts, c, opts))))
  {
    var reports := Reports(facts, c, opts);
    assert forall k :: 0 <= k < |reports| ==> reports[k].facts == facts[k];
    forall k | 0 <= k < |reports| ensures NamedFns(reports[k].externals) {
      ClassifiedNames(facts[k].externals, c, opts);
    }
    hide NamedFns, TameFile, Analyze;
    RowsLoad(defaults, reports, opts.marks);
    hide LoadRecords, SheetOf;
  }

  lemma ClassifiedNames(names: seq<string>, c: Corpus, opts: Scoring)
    requires forall j :: 0 <= j < |names| ==> NameLike(names[j])
    ensures NamedFns(Classified(names, c, opts))
  {
    hide NameLike;
  }

  /** A function is re-scored as before: its row is loaded, or its weight is that of its tier. */
  predicate Recovered(facts: seq<Facts>, name: string, c: Corpus, opts: Scoring) {
    OnLoadableRow(facts, name) || ClassifyExternal(name, c, opts).weight == TierMark(TierClass(name, c), opts.marks)
  }

  /** Re-analysis under the options loaded back from the analysis' own CSV reproduces every report exactly when
      every external function is on a row that is not taken for a comment or weighs what its tier weighs. */
  lemma RescoreIsFixpointIff(defaults: Marks, facts: seq<Facts>, c: Corpus, opts: Scoring)
    requires Tame(facts) && Named(facts)
    ensures var loaded := LoadOptions(defaults, Records(SheetOf(Reports(facts, c, opts), opts.marks)));
            loaded.Ok? &&
            (Reports(facts, c, loaded.value) == Reports(facts, c, opts) <==>
             forall k, j :: 0 <= k < |facts| && 0 <= j < |facts[k].externals| ==> Recovered(facts, facts[k].externals[j], c, opts))
  {
    LoadRecovers(defaults, facts, c, opts);
    var again := Scoring(opts.marks, AfterReports(Reports(facts, c, opts)));
    hide LoadOptions, SheetOf, Reports, Tame, Named;
    forall k | 0 <= k < |facts|
      ensures Analyze(facts[k], c, again) == Analyze(facts[k], c, opts) <==>
              forall j :: 0 <= j < |facts[k].externals| ==> Recovered(facts, facts[k].externals[j], c, opts)
    {
      RescoreOne(facts, k, c, opts);
    }
    SameReports(facts, c, again, opts);
  }

  lemma SameReports(facts: seq<Facts>, c: Corpus, a: Scoring, b: Scoring)
    ensures Reports(facts, c, a) == Reports(facts, c, b) <==>
            forall k :: 0 <= k < |facts| ==> Analyze(facts[k], c, a) == Analyze(facts[k], c, b)
  {
    hide Analyze;
    var x, y := Reports(facts, c, a), Reports(facts, c, b);
    assert forall k :: 0 <= k < |facts| ==> x[k] == Analyze(facts[k], c, a) && y[k] == Analyze(facts[k], c, b);
  }

  /** The report of one file is reproduced exactly when each of its functions is recovered. */
  lemma RescoreOne(facts: seq<Facts>, k: nat, c: Corpus, opts: Scoring)
    requires k < |facts|
    ensures var again := Scoring(opts.marks, AfterReports(Reports(facts, c, opts)));
            Analyze(facts[k], c, again) == Analyze(facts[k], c, opts) <==>
            forall j :: 0 <= j < |facts[k].externals| ==> Recovered(facts, facts[k].externals[j], c, opts)
  {
    var again := Scoring(opts.marks, AfterReports(Reports(facts, c, opts)));
    var names := facts[k].externals;
    forall j | 0 <= j < |names|
      ensures ClassifyExternal(names[j], c, again) == ClassifyExternal(names[j], c, opts) <==> Recovered(facts, names[j], c, opts)
    {
      LoadedWeights(facts, c, opts, names[j]);
      hide AfterReports, OnLoadableRow;
    }
    var x, y := Classified(names, c, again), Classified(names, c, opts);
    assert forall j :: 0 <= j < |names| ==> x[j] == ClassifyExternal(names[j], c, again) && y[j] == ClassifyExternal(names[j], c, opts);
    hide ClassifyExternal, Recovered, AfterReports, Reports;
    assert x == y <==> forall j :: 0 <= j < |names| ==> x[j] == y[j];
  }

  /** With no file name that starts with a number sign, re-scoring is a fixpoint. */
  lemma RescoreIsFixpoint(defaults: Marks, facts: seq<Facts>, c: Corpus, opts: Scoring)
    requires Tame(facts) && Named(facts) && forall k :: 0 <= k < |facts| ==> !Commented(facts[k].file)
    ensures var loaded := LoadOptions(defaults, Records(SheetOf(Reports(facts, c, opts), opts.marks)));
            loaded.Ok? && loaded.value.marks == opts.marks && Reports(facts, c, loaded.value) == Reports(facts, c, opts)
  {
    LoadRecovers(defaults, facts, c, opts);
    RescoreIsFixpointIff(defaults, facts, c, opts);
    hide LoadOptions, SheetOf, Reports, Tame, Named, Commented;
    forall k, j | 0 <= k < |facts| && 0 <= j < |facts[k].externals| ensures Recovered(facts, facts[k].externals[j], c, opts) {
      assert facts[k].externals[j] in facts[k].externals;
    }
  }
}
