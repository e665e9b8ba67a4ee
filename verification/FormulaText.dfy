/** Reading the written formulas back: the text of every formula cell stands for exactly the formula it was
    written from. */
module FormulaText {
  import opened Options
  import opened Text
  import opened Numerals
  import opened Delimited
  import opened Rescore

  // ---------------------------------------------------------------- the reader

  function LetterRun(s: string): (n: nat)
    ensures n <= |s| && AllLetters(s[..n]) && (n < |s| ==> !IsLetter(s[n]))
  {
    if s == "" || !IsLetter(s[0]) then 0 else 1 + LetterRun(s[1..])
  }

  function DigitRun(s: string): (n: nat)
    ensures n <= |s| && (forall i :: 0 <= i < n ==> IsDigit(s[i])) && (n < |s| ==> !IsDigit(s[n]))
  {
    if s == "" || !IsDigit(s[0]) then 0 else 1 + DigitRun(s[1..])
  }

  /** An expression and the text behind it. */
  type Reading = Option<(Expr, string)>

  function ReadRef(s: string): (r: Reading)
    ensures r.Some? ==> |r.value.1| < |s|
  {
    var n := LetterRun(s);
    var absolute := n < |s| && s[n] == '$';
    var t := s[if absolute then n + 1 else n..];
    var k := DigitRun(t);
    if n == 0 || k == 0 then None
    else match Value(t[..k]) case None => None case Some(row) => Some((Ref(s[..n], row, absolute), t[k..]))
  }

  function ReadStr(s: string): (r: Reading)
    ensures r.Some? ==> |r.value.1| < |s|
  {
    if !HasAt(s, 0, "\"") then None
    else match IndexFrom(s, 1, "\"") case None => None case Some(i) => Some((Str(s[1..i]), s[i + 1..]))
  }

  /** The text behind a token. */
  function Expect(s: string, token: string): (r: Option<string>)
    ensures r.Some? ==> |r.value| == |s| - |token|
  {
    if HasAt(s, 0, token) then Some(s[|token|..]) else None
  }

  function ReadFactor(s: string): (r: Reading)
    ensures r.Some? ==> |r.value.1| < |s|
    decreases |s|, 0
  {
    match Expect(s, "IF(")
    case Some(t) => ReadIf(t)
    case None => if HasAt(s, 0, "\"") then ReadStr(s) else ReadRef(s)
  }

  /** The four parts of a conditional. */
  function ReadIf(s: string): (r: Reading)
    ensures r.Some? ==> |r.value.1| < |s|
    decreases |s|, 5
  {
    match ReadPart(s, ">=")
    case None => None
    case Some((v, s1)) =>
      match ReadPart(s1, ",")
      case None => None
      case Some((b, s2)) =>
        match ReadPart(s2, ",")
        case None => None
        case Some((y, s3)) =>
          match ReadPart(s3, ")")
          case None => None
          case Some((n, s4)) => Some((IfAtLeast(v, b, y, n), s4))
  }

  function ReadPart(s: string, token: string): (r: Reading)
    ensures r.Some? ==> |r.value.1| < |s|
    decreases |s|, 4
  {
    match ReadSum(s)
    case None => None
    case Some((e, t)) => match Expect(t, token) case None => None case Some(u) => Some((e, u))
  }

  function ReadTerm(s: string): (r: Reading)
    ensures r.Some? ==> |r.value.1| < |s|
    decreases |s|, 1
  {
    match ReadFactor(s) case None => None case Some((e, t)) => TermRest(e, t)
  }

  function TermRest(e: Expr, s: string): (r: Reading)
    ensures r.Some? ==> |r.value.1| <= |s|
    decreases |s|, 2
  {
    if !HasAt(s, 0, "*") then Some((e, s))
    else match ReadFactor(s[1..]) case None => None case Some((f, t)) => TermRest(Mul(e, f), t)
  }

  function ReadSum(s: string): (r: Reading)
    ensures r.Some? ==> |r.value.1| < |s|
    decreases |s|, 3
  {
    match ReadTerm(s) case None => None case Some((e, t)) => SumRest(e, t)
  }

  function SumRest(e: Expr, s: string): (r: Reading)
    ensures r.Some? ==> |r.value.1| <= |s|
    decreases |s|, 2
  {
    if !HasAt(s, 0, "+") then Some((e, s))
    else match ReadTerm(s[1..]) case None => None case Some((f, t)) => SumRest(Add(e, f), t)
  }

  /** A cell that starts with an equals sign is a formula. */
  function ReadCell(text: string): Option<Cell> {
    if !HasAt(text, 0, "=") then Some(Plain(text))
    else match ReadSum(text[1..]) case Some((e, t)) => if t == "" then Some(Formula(e)) else None case None => None
  }

  // ---------------------------------------------------------------- what is written reads back

  predicate IsFactor(e: Expr)
    decreases e, 0
  {
    match e
    case Ref(col, _, _) => col != "" && AllLetters(col)
    case Str(t) => forall i :: 0 <= i < |t| ==> t[i] != '"'
    case IfAtLeast(v, b, y, n) => IsSum(v) && IsSum(b) && IsSum(y) && IsSum(n)
    case _ => false
  }

  predicate IsTerm(e: Expr)
    decreases e, 1
  {
    match e
    case Mul(a, b) => IsTerm(a) && IsFactor(b)
    case _ => IsFactor(e)
  }

  /** A formula that is read as it is written: sums of products, grouped to the left. */
  predicate IsSum(e: Expr)
    decreases e, 2
  {
    match e
    case Add(a, b) => IsSum(a) && IsTerm(b)
    case _ => IsTerm(e)
  }

  /** Nothing behind an operand can be taken for part of it. */
  predicate Stops(r: string) {
    r == "" || r[0] in ['*', '+', '>', ',', ')']
  }

  lemma StartsWith(token: string, r: string)
    ensures HasAt(token + r, 0, token) && (token + r)[|token|..] == r
  {
    assert (token + r)[0..0 + |token|] == token;
  }

  lemma StartsNot(s: string, token: string)
    requires token != "" && (s == "" || s[0] != token[0])
    ensures !HasAt(s, 0, token)
  {
    if s != "" && |token| <= |s| {
      assert s[0..0 + |token|][0] == s[0];
    }
  }

  lemma {:induction false} LetterRunIs(col: string, r: string)
    requires AllLetters(col) && (r == "" || !IsLetter(r[0]))
    ensures LetterRun(col + r) == |col|
  {
    if col != "" {
      assert (col + r)[1..] == col[1..] + r;
      LetterRunIs(col[1..], r);
    } else {
      assert col + r == r;
    }
  }

  lemma {:induction false} DigitRunIs(num: string, r: string)
    requires (forall i :: 0 <= i < |num| ==> IsDigit(num[i])) && (r == "" || !IsDigit(r[0]))
    ensures DigitRun(num + r) == |num|
  {
    if num != "" {
      assert (num + r)[1..] == num[1..] + r;
      DigitRunIs(num[1..], r);
    } else {
      assert num + r == r;
    }
  }

  lemma ItoaDigits(n: nat)
    ensures Itoa(n) != "" && (forall i :: 0 <= i < |Itoa(n)| ==> IsDigit(Itoa(n)[i])) && Value(Itoa(n)) == Some(n)
  {
    DigitsOnly(n);
    ValueOfDigits(n);
  }

  lemma RefReads(col: string, row: nat, absolute: bool, r: string)
    requires col != "" && AllLetters(col) && Stops(r)
    ensures ReadRef(col + ((if absolute then "$" else "") + (Itoa(row) + r))) == Some((Ref(col, row, absolute), r))
  {
    var num := Itoa(row);
    ItoaDigits(row);
    hide Itoa, Value;
    var t := num + r;
    var sign := if absolute then "$" else "";
    var s := col + (sign + t);
    LetterRunIs(col, sign + t);
    DigitRunIs(num, r);
    assert s[..|col|] == col && s[|col|..] == sign + t && t[..|num|] == num && t[|num|..] == r;
    if absolute {
      assert s[|col|] == '$' && s[|col| + 1..] == t;
    } else {
      assert sign + t == t && s[|col|] == num[0];
    }
  }

  lemma RefIsNoIf(col: string, tail: string)
    requires col != "" && AllLetters(col) && tail != "" && (tail[0] == '$' || IsDigit(tail[0]))
    ensures !HasAt(col + tail, 0, "IF(") && !HasAt(col + tail, 0, "\"")
  {
    var s := col + tail;
    assert s[0] == col[0] && IsLetter(col[0]);
    if |s| >= 3 {
      assert s[0..3][1] == s[1] && s[0..3][2] == s[2];
      assert "IF("[1] == 'F' && "IF("[2] == '(';
      assert |col| >= 3 ==> IsLetter(col[2]);
    }
    StartsNot(s, "\"");
  }

  lemma StrReads(t: string, r: string)
    requires forall i :: 0 <= i < |t| ==> t[i] != '"'
    ensures ReadFactor("\"" + (t + ("\"" + r))) == Some((Str(t), r))
  {
    var s := "\"" + (t + ("\"" + r));
    StartsWith("\"", t + ("\"" + r));
    StartsNot(s, "IF(");
    IndexFirst(s, 1, "\"");
    assert s[1 + |t|..2 + |t|] == "\"";
    assert HasAt(s, 1 + |t|, "\"");
    forall j | 1 <= j < 1 + |t| ensures !HasAt(s, j, "\"") {
      assert s[j] == t[j - 1];
      assert s[j..j + 1][0] == s[j];
    }
    assert s[1..1 + |t|] == t && s[2 + |t|..] == r;
  }

  lemma RefPieces(col: string, sign: string, num: string, r: string)
    ensures col + sign + num + r == col + (sign + (num + r))
  {
  }

  lemma IfPieces(v: string, b: string, y: string, n: string, r: string)
    ensures "IF(" + v + ">=" + b + "," + y + "," + n + ")" + r ==
            "IF(" + (v + (">=" + (b + ("," + (y + ("," + (n + (")" + r))))))))
  {
    var open, ge, c, close := "IF(", ">=", ",", ")";
    TwoAt(open + v, ge, b);
    TwoAt(open + v + ge + b, c, y);
    assert open + v + ge + b + c + y + c + n + close + r == open + (v + (ge + (b + (c + (y + (c + (n + (close + r))))))));
  }

  lemma TwoAt(a: string, b: string, c: string)
    ensures a + b + c == a + (b + c)
  {
  }

  lemma {:induction false} FactorReads(e: Expr, r: string)
    requires IsFactor(e) && Stops(r)
    ensures ReadFactor(ShowExpr(e) + r) == Some((e, r))
    decreases e, 1
  {
    hide Itoa, ReadIf;
    match e
    case Ref(col, row, absolute) =>
      var sign := if absolute then "$" else "";
      RefPieces(col, sign, Itoa(row), r);
      RefReads(col, row, absolute, r);
      ItoaDigits(row);
      RefIsNoIf(col, sign + (Itoa(row) + r));
    case Str(t) =>
      assert "\"" + t + "\"" + r == "\"" + (t + ("\"" + r));
      StrReads(t, r);
    case IfAtLeast(v, b, y, n) =>
      IfReads(v, b, y, n, r);
  }

  lemma {:induction false} IfReads(v: Expr, b: Expr, y: Expr, n: Expr, r: string)
    requires IsSum(v) && IsSum(b) && IsSum(y) && IsSum(n)
    ensures ReadFactor(ShowExpr(IfAtLeast(v, b, y, n)) + r) == Some((IfAtLeast(v, b, y, n), r))
    decreases IfAtLeast(v, b, y, n), 0
  {
    hide ReadPart;
    var s4 := ")" + r;
    var s3 := "," + (ShowExpr(n) + s4);
    var s2 := "," + (ShowExpr(y) + s3);
    var s1 := ">=" + (ShowExpr(b) + s2);
    IfPieces(ShowExpr(v), ShowExpr(b), ShowExpr(y), ShowExpr(n), r);
    StartsWith("IF(", ShowExpr(v) + s1);
    PartReads(v, ">=", ShowExpr(b) + s2);
    PartReads(b, ",", ShowExpr(y) + s3);
    PartReads(y, ",", ShowExpr(n) + s4);
    PartReads(n, ")", r);
  }

  lemma {:induction false} PartReads(e: Expr, token: string, r: string)
    requires IsSum(e) && token in [">=", ",", ")"]
    ensures ReadPart(ShowExpr(e) + (token + r), token) == Some((e, r))
    decreases e, 4
  {
    hide ReadSum;
    StartsWith(token, r);
    assert (token + r)[0] == token[0];
    SumReads(e, token + r);
    StartsNot(token + r, "+");
  }

  lemma {:induction false} TermReads(e: Expr, r: string)
    requires IsTerm(e) && Stops(r)
    ensures ReadTerm(ShowExpr(e) + r) == TermRest(e, r)
    decreases e, 2
  {
    hide ReadFactor;
    match e
    case Mul(a, b) =>
      var tail := "*" + (ShowExpr(b) + r);
      assert ShowExpr(a) + "*" + ShowExpr(b) + r == ShowExpr(a) + tail;
      TermReads(a, tail);
      StartsWith("*", ShowExpr(b) + r);
      FactorReads(b, r);
    case Add(_, _) =>
    case _ => FactorReads(e, r);
  }

  lemma {:induction false} SumReads(e: Expr, r: string)
    requires IsSum(e) && Stops(r) && (r == "" || r[0] != '*')
    ensures ReadSum(ShowExpr(e) + r) == SumRest(e, r)
    decreases e, 3
  {
    hide ReadTerm;
    StartsNot(r, "*");
    match e
    case Add(a, b) =>
      var tail := "+" + (ShowExpr(b) + r);
      assert ShowExpr(a) + "+" + ShowExpr(b) + r == ShowExpr(a) + tail;
      SumReads(a, tail);
      StartsWith("+", ShowExpr(b) + r);
      TermReads(b, r);
    case _ => TermReads(e, r);
  }

  /** A formula cell reads back as its formula. */
  lemma FormulaReads(e: Expr)
    requires IsSum(e)
    ensures ReadCell(ShowCell(Formula(e))) == Some(Formula(e))
  {
    hide ReadSum, ShowExpr;
    StartsWith("=", ShowExpr(e));
    SumReads(e, "");
    assert ShowExpr(e) + "" == ShowExpr(e);
    StartsNot("", "+");
  }

  // ---------------------------------------------------------------- the written sheet

  lemma AtIsSum(col: nat, row: nat)
    requires col > 0
    ensures IsFactor(At(col, row)) && IsFactor(MarkAt(col))
  {
    ColumnOfLetters(col);
  }

  lemma FactorIsSum(e: Expr)
    requires IsFactor(e)
    ensures IsTerm(e) && IsSum(e)
  {
  }

  lemma ProductIsTerm(a: Expr, b: Expr)
    requires IsFactor(a) && IsFactor(b)
    ensures IsTerm(Mul(a, b)) && IsSum(Mul(a, b))
  {
    FactorIsSum(a);
  }

  lemma SumIsSum(a: Expr, b: Expr)
    requires IsSum(a) && IsTerm(b)
    ensures IsSum(Add(a, b))
  {
  }

  lemma IfIsFactor(v: Expr, b: Expr, y: Expr, n: Expr)
    requires IsFactor(v) && IsFactor(b) && IsFactor(y) && IsFactor(n)
    ensures IsFactor(IfAtLeast(v, b, y, n))
  {
    FactorIsSum(v);
    FactorIsSum(b);
    FactorIsSum(y);
    FactorIsSum(n);
  }

  /** The three formulas of a row are sums of products, or conditionals over cells. */
  lemma FormulasAreSums(row: nat)
    ensures IsSum(ScoreFormula(row)) && IsSum(TierFormula(row)) && IsSum(TotalFormula(row))
  {
    forall col: nat | col > 0 ensures IsFactor(At(col, row)) && IsFactor(MarkAt(col)) {
      AtIsSum(col, row);
    }
    assert IsFactor(Str("HIGH")) && IsFactor(Str("MEDIUM")) && IsFactor(Str("LOW"));
    hide IsFactor, IsTerm, IsSum, At, MarkAt;
    var q, b := Mul(MarkAt(QUERIES_COL), At(QUERIES_COL, row)), Mul(MarkAt(BRANCH_COL), At(BRANCH_COL, row));
    var t := Mul(MarkAt(TPCALL_COL), At(TPCALL_COL, row));
    ProductIsTerm(MarkAt(QUERIES_COL), At(QUERIES_COL, row));
    ProductIsTerm(MarkAt(BRANCH_COL), At(BRANCH_COL, row));
    ProductIsTerm(MarkAt(TPCALL_COL), At(TPCALL_COL, row));
    FactorIsSum(At(WEIGHT_COL, row));
    FactorIsSum(At(SCORE_COL, row));
    FactorIsSum(At(DEP_COL, row));
    FactorIsSum(At(FN_DEP_COL, row));
    SumIsSum(q, b);
    SumIsSum(Add(q, b), t);
    SumIsSum(Add(Add(q, b), t), At(WEIGHT_COL, row));
    SumIsSum(At(SCORE_COL, row), At(DEP_COL, row));
    SumIsSum(Add(At(SCORE_COL, row), At(DEP_COL, row)), At(FN_DEP_COL, row));
    IfIsFactor(At(SCORE_COL, row), MarkAt(TIER_COL), Str("MEDIUM"), Str("LOW"));
    IfIsFactor(At(SCORE_COL, row), MarkAt(SCORE_COL), Str("HIGH"),
               IfAtLeast(At(SCORE_COL, row), MarkAt(TIER_COL), Str("MEDIUM"), Str("LOW")));
    FactorIsSum(TierFormula(row));
  }

  /** A cell whose text would be taken for what it is. */
  predicate CellReads(c: Cell) {
    ReadCell(ShowCell(c)) == Some(c)
  }

  lemma PlainReads(text: string)
    ensures CellReads(Plain(text)) <==> text == "" || text[0] != '='
  {
    if text == "" || text[0] != '=' {
      StartsNot(text, "=");
    } else {
      assert text[0..1] == "=";
    }
  }

  /** The sheet a reader makes of the records; none when a formula does not read. */
  function ReadCells(texts: seq<string>): Option<seq<Cell>> {
    if texts == [] then Some([])
    else
      match (ReadCells(texts[..|texts| - 1]), ReadCell(texts[|texts| - 1]))
      case (Some(cells), Some(c)) => Some(cells + [c])
      case _ => None
  }

  function ReadSheet(records: seq<seq<string>>): Option<Sheet> {
    if records == [] then Some([])
    else
      match (ReadSheet(records[..|records| - 1]), ReadCells(records[|records| - 1]))
      case (Some(sheet), Some(cells)) => Some(sheet + [cells])
      case _ => None
  }

  predicate AllRead(cells: seq<Cell>) {
    forall k :: 0 <= k < |cells| ==> CellReads(cells[k])
  }

  lemma {:induction false} CellsRead(cells: seq<Cell>)
    ensures ReadCells(ShowCells(cells)) == Some(cells) <==> AllRead(cells)
  {
    hide ReadCell, ShowCell;
    if cells != [] {
      var n := |cells| - 1;
      CellsRead(cells[..n]);
      assert ShowCells(cells)[..n] == ShowCells(cells[..n]);
      assert cells[..n] + [cells[n]] == cells;
      SameSnoc(cells[..n], cells[n], cells);
      assert AllRead(cells) <==> AllRead(cells[..n]) && CellReads(cells[n]);
    }
  }

  lemma SameSnoc<T>(init: seq<T>, last: T, s: seq<T>)
    requires s == init + [last]
    ensures forall init', last' :: init' + [last'] == s ==> init' == init && last' == last
  {
    forall init', last' | init' + [last'] == s ensures init' == init && last' == last {
      assert (init' + [last'])[|init'|] == last' && (init' + [last'])[..|init'|] == init';
      assert s[|init|] == last && s[..|init|] == init;
    }
  }

  lemma {:induction false} RecordsRead(sheet: Sheet)
    ensures ReadSheet(Records(sheet)) == Some(sheet) <==> forall k :: 0 <= k < |sheet| ==> AllRead(sheet[k])
  {
    hide AllRead;
    if sheet != [] {
      var n := |sheet| - 1;
      RecordsRead(sheet[..n]);
      CellsRead(sheet[n]);
      assert Records(sheet)[..n] == Records(sheet[..n]);
      assert sheet[..n] + [sheet[n]] == sheet;
      SameSnoc(sheet[..n], sheet[n], sheet);
    }
  }

  /** Free text that a spreadsheet takes as text. */
  predicate PlainText(text: string) {
    text == "" || text[0] != '='
  }

  /** No text of the row starts with an equals sign. */
  predicate PlainRow(r: Report, row: nat) {
    forall k :: 0 <= k < COLUMNS && RowCells(r, row)[k].Plain? ==> PlainText(RowCells(r, row)[k].text)
  }

  predicate PlainRows(reports: seq<Report>) {
    forall k :: 0 <= k < |reports| ==> PlainRow(reports[k], k + 4)
  }

  lemma ItoaPlain(n: int)
    ensures PlainText(Itoa(n))
  {
    ItoaShape(n);
  }

  lemma RowReads(r: Report, row: nat)
    ensures AllRead(RowCells(r, row)) <==> PlainRow(r, row)
  {
    hide RowCells, PlainText, IsSum;
    FormulaCells(r, row);
    FormulasAreSums(row);
    forall k: nat | k < COLUMNS && RowCells(r, row)[k].Formula? ensures SoundCell(RowCells(r, row)[k]) {
      FormulaColumns(r, row, k);
    }
    SoundCells(RowCells(r, row));
  }

  lemma FormulaCells(r: Report, row: nat)
    ensures var cells := RowCells(r, row);
            && cells[16] == Formula(ScoreFormula(row)) && cells[17] == Formula(TierFormula(row))
            && cells[24] == Formula(TotalFormula(row))
  {
    hide Itoa, JoinOn, ShowFns, ExtWeight, ScoreFormula, TierFormula, TotalFormula;
  }

  lemma FormulaColumns(r: Report, row: nat, k: nat)
    requires k < COLUMNS && RowCells(r, row)[k].Formula?
    ensures k == 16 || k == 17 || k == 24
  {
    hide Itoa, JoinOn, ShowFns, ExtWeight, ScoreFormula, TierFormula, TotalFormula;
  }

  /** The text of a plain cell is plain, and a formula is read as it is written. */
  predicate SoundCell(c: Cell) {
    match c case Plain(text) => PlainText(text) case Formula(e) => IsSum(e)
  }

  lemma SoundCells(cells: seq<Cell>)
    requires forall k :: 0 <= k < |cells| && cells[k].Formula? ==> SoundCell(cells[k])
    ensures AllRead(cells) <==> forall k :: 0 <= k < |cells| ==> SoundCell(cells[k])
  {
    hide ReadCell, ShowCell, PlainText, IsSum, CellReads;
    forall k | 0 <= k < |cells| ensures CellReads(cells[k]) <==> SoundCell(cells[k]) {
      match cells[k]
      case Plain(text) => PlainReads(text); PlainTextIs(text);
      case Formula(e) => FormulaReads(e); FormulaCellReads(e);
    }
  }

  lemma PlainTextIs(text: string)
    ensures PlainText(text) <==> text == "" || text[0] != '='
  {
  }

  lemma FormulaCellReads(e: Expr)
    requires ReadCell(ShowCell(Formula(e))) == Some(Formula(e))
    ensures CellReads(Formula(e))
  {
    hide ReadCell, ShowCell;
  }

  lemma PlainCellReads(text: string)
    requires PlainText(text)
    ensures CellReads(Plain(text))
  {
    PlainReads(text);
  }

  lemma PlainCellsRead(texts: seq<string>)
    requires forall k :: 0 <= k < |texts| ==> PlainText(texts[k])
    ensures AllRead(PlainCells(texts))
  {
    hide ReadCell, ShowCell, CellReads, PlainText;
    forall k | 0 <= k < |texts| ensures CellReads(Plain(texts[k])) {
      PlainCellReads(texts[k]);
    }
  }

  lemma TopReads(m: Marks)
    ensures AllRead(PlainCells([MarksLine(m)])) && AllRead(PlainCells(MarksRow(m))) && AllRead(PlainCells(HEADER))
  {
    forall n ensures PlainText(Itoa(n)) {
      ItoaPlain(n);
    }
    hide Itoa;
    assert PlainText(MarksLine(m));
    PlainCellsRead([MarksLine(m)]);
    forall k: nat | k < COLUMNS ensures PlainText(MarksRow(m)[k]) && PlainText(HEADER[k]) {
      MarksCellPlain(m, k);
    }
    MarksRowCell(m, 0);
    hide PlainText, MarksRow;
    PlainCellsRead(MarksRow(m));
    PlainCellsRead(HEADER);
  }

  lemma MarksCellPlain(m: Marks, k: nat)
    requires k < COLUMNS
    ensures |MarksRow(m)| == |HEADER| == COLUMNS && PlainText(MarksRow(m)[k]) && PlainText(HEADER[k])
  {
    forall n ensures PlainText(Itoa(n)) {
      ItoaPlain(n);
    }
    hide Itoa;
  }

  lemma SheetRowReads(reports: seq<Report>, m: Marks, k: nat)
    requires k < |reports| + 3
    ensures AllRead(SheetOf(reports, m)[k]) <==> (k < 3 || PlainRow(reports[k - 3], k + 1))
  {
    hide *;
    TopReads(m);
    SheetRows(reports, m);
    if k >= 3 {
      RowReads(reports[k - 3], k + 1);
    }
  }

  /** The written sheet reads back as it was made exactly when no text of a row starts with an equals sign. */
  lemma SheetReadsIff(reports: seq<Report>, m: Marks)
    ensures ReadSheet(Records(SheetOf(reports, m))) == Some(SheetOf(reports, m)) <==> PlainRows(reports)
  {
    hide AllRead, RowCells, SheetOf, PlainRow, ReadSheet, Records;
    var sheet := SheetOf(reports, m);
    RecordsRead(sheet);
    forall k | 0 <= k < |sheet| ensures AllRead(sheet[k]) <==> (k < 3 || PlainRow(reports[k - 3], k + 1)) {
      SheetRowReads(reports, m, k);
    }
    forall k | 0 <= k < |reports| ensures PlainRow(reports[k], k + 4) <==> AllRead(sheet[k + 3]) {
      assert reports[k + 3 - 3] == reports[k];
    }
    if PlainRows(reports) {
      forall k | 0 <= k < |sheet| ensures AllRead(sheet[k]) {
        if k >= 3 {
          assert PlainRow(reports[k - 3], k - 3 + 4);
        }
      }
    }
  }

  lemma SheetRows(reports: seq<Report>, m: Marks)
    ensures var sheet := SheetOf(reports, m);
            && sheet[0] == PlainCells([MarksLine(m)]) && sheet[1] == PlainCells(MarksRow(m)) && sheet[2] == PlainCells(HEADER)
            && forall k :: 3 <= k < |sheet| ==> sheet[k] == RowCells(reports[k - 3], k + 1)
  {
    hide PlainCells, RowCells, MarksLine, MarksRow;
  }

  /** The written file, read as a spreadsheet reads it, shows the scores and tiers the analysis computed. */
  lemma WrittenFormulasAgree(facts: seq<Facts>, c: Corpus, opts: Scoring, k: nat)
    requires k < |facts| && PlainRows(Reports(facts, c, opts))
    ensures var reports := Reports(facts, c, opts);
            var sheet, r := ReadSheet(Records(SheetOf(reports, opts.marks))), reports[k];
            && sheet.Some?
            && Eval(sheet.value, At(SCORE_COL, k + 4), 1) == Num(r.score)
            && Eval(sheet.value, At(TIER_COL, k + 4), 2) == Txt(r.tier)
            && Eval(sheet.value, At(COLUMNS, k + 4), 2) == Num(r.score + r.facts.tpDepScore + r.facts.fnDepScore)
  {
    hide Eval, SheetOf, Records, PlainRows;
    SheetReadsIff(Reports(facts, c, opts), opts.marks);
    FormulasAgree(facts, c, opts, k);
  }
}
