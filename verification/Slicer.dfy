/** Cutting a flattened legacy view into statement units, gluing else-chains, and padding braces. */
module Slicer {
  import opened Options
  import opened Text

  // ---------------------------------------------------------------- the line scanner

  datatype Scan = Scan(depth: int, inBlock: bool, inString: bool, inChar: bool, escaped: bool, sawCode: bool)

  const FRESH := Scan(0, false, false, false, false, false)

  predicate InCode(st: Scan) {
    !st.inBlock && !st.inString && !st.inChar
  }

  /** One turn of the character loop: the state after it and the next position. */
  function ScanStep(st: Scan, line: string, i: nat): (r: (Scan, nat))
    requires i < |line|
    ensures i < r.1
  {
    var ch := line[i];
    if st.inBlock then
      if ch == '*' && i + 1 < |line| && line[i + 1] == '/' then (st.(inBlock := false), i + 2) else (st, i + 1)
    else if st.inString then
      (if st.escaped then st.(escaped := false)
       else if ch == '\\' then st.(escaped := true)
       else if ch == '"' then st.(inString := false) else st, i + 1)
    else if st.inChar then
      (if st.escaped then st.(escaped := false)
       else if ch == '\\' then st.(escaped := true)
       else if ch == '\'' then st.(inChar := false) else st, i + 1)
    else if ch == '/' && i + 1 < |line| && line[i + 1] == '*' then
      (st.(inBlock := true, sawCode := true), i + 2)
    else if ch == '/' && i + 1 < |line| && line[i + 1] == '/' then (st, |line|)
    else
      var st' := if ch == '"' then st.(inString := true)
                 else if ch == '\'' then st.(inChar := true)
                 else if ch == '{' then st.(depth := st.depth + 1)
                 else if ch == '}' then st.(depth := st.depth - 1)
                 else st;
      (if ch != ' ' && ch != '\t' && ch != '\r' then st'.(sawCode := true) else st', i + 1)
  }

  /** State after the rest of a line from position `i`. */
  function ScanFrom(st: Scan, line: string, i: nat): Scan
    decreases |line| - i
  {
    if i >= |line| then st
    else
      var (st', j) := ScanStep(st, line, i);
      ScanFrom(st', line, j)
  }

  function ScanLineFn(st: Scan, line: string): Scan {
    ScanFrom(st.(sawCode := false), line, 0)
  }

  function ScanLines(st: Scan, lines: seq<string>): Scan {
    if lines == [] then st else ScanLineFn(ScanLines(st, lines[..|lines| - 1]), lines[|lines| - 1])
  }

  class SliceScanner {
    var depth: int
    var inBlock: bool
    var inString: bool
    var inChar: bool
    var escaped: bool
    var sawCode: bool

    constructor ()
      ensures State() == FRESH
    {
      depth, inBlock, inString, inChar, escaped, sawCode := 0, false, false, false, false, false;
    }

    function State(): Scan
      reads this
    {
      Scan(depth, inBlock, inString, inChar, escaped, sawCode)
    }

    method ScanLine(line: string)
      modifies this
      ensures State() == ScanLineFn(old(State()), line)
    {
      sawCode := false;
      ghost var st0 := State();
      var i := 0;
      while i < |line|
        invariant ScanFrom(State(), line, i) == ScanFrom(st0, line, 0)
      {
        var ch := line[i];
        if inBlock {
          if ch == '*' && i + 1 < |line| && line[i + 1] == '/' {
            inBlock := false;
            i := i + 1;
          }
        } else if inString {
          if escaped {
            escaped := false;
          } else if ch == '\\' {
            escaped := true;
          } else if ch == '"' {
            inString := false;
          }
        } else if inChar {
          if escaped {
            escaped := false;
          } else if ch == '\\' {
            escaped := true;
          } else if ch == '\'' {
            inChar := false;
          }
        } else {
          if ch == '/' && i + 1 < |line| && line[i + 1] == '*' {
            inBlock := true;
            i := i + 1;
          } else if ch == '/' && i + 1 < |line| && line[i + 1] == '/' {
            return;
          } else if ch == '"' {
            inString := true;
          } else if ch == '\'' {
            inChar := true;
          } else if ch == '{' {
            depth := depth + 1;
          } else if ch == '}' {
            depth := depth - 1;
          }
          if ch != ' ' && ch != '\t' && ch != '\r' {
            sawCode := true;
          }
        }
        i := i + 1;
      }
    }
  }

  // ---------------------------------------------------------------- comment-free line heads

  /** The line without leading block comments and white space. */
  function StripLeadingComments(line: string): string {
    StripComments(Trim(line))
  }

  function StripComments(s: string): string
    decreases |s|
  {
    if !HasAt(s, 0, "/*") then s
    else
      match IndexFrom(s, 0, "*/")
      case None => s
      case Some(end) => TrimShorter(s[end + 2..]); StripComments(Trim(s[end + 2..]))
  }

  lemma TrimShorter(s: string)
    ensures |Trim(s)| <= |s|
  {
  }

  /** A trimmed line that ends a statement shows code under its leading comments. */
  lemma {:induction false} CodeUnderComments(s: string)
    requires s != "" && Tight(s) && (s[|s| - 1] == ';' || s[|s| - 1] == '}')
    ensures StripComments(s) != ""
    decreases |s|
  {
    if HasAt(s, 0, "/*") {
      IndexFirst(s, 0, "*/");
      match IndexFrom(s, 0, "*/")
      case None =>
      case Some(end) =>
        assert s[end + 1] == s[end..end + 2][1] == '/';
        var r := s[end + 2..];
        assert r != "" && r[|r| - 1] == s[|s| - 1];
        var a, c := TrimSplit(r);
        TrimKeepsEnd(r);
        CodeUnderComments(Trim(r));
    }
  }

  lemma {:induction false} TrimLeftKeepsEnd(r: string)
    requires r != "" && !IsSpace(r[|r| - 1])
    ensures TrimLeft(r) != "" && TrimLeft(r)[|TrimLeft(r)| - 1] == r[|r| - 1]
  {
    if IsSpace(r[0]) {
      TrimLeftKeepsEnd(r[1..]);
    }
  }

  lemma TrimKeepsEnd(r: string)
    requires r != "" && !IsSpace(r[|r| - 1])
    ensures Trim(r) != "" && Trim(r)[|Trim(r)| - 1] == r[|r| - 1] && |Trim(r)| <= |r|
  {
    TrimLeftKeepsEnd(r);
  }

  // ---------------------------------------------------------------- statement units

  predicate EndsStatement(line: string) {
    var t := Trim(line);
    t != "" && (t[|t| - 1] == ';' || t[|t| - 1] == '}')
  }

  predicate Continued(line: string) {
    var t := Trim(line);
    t != "" && t[|t| - 1] == '\\'
  }

  /** First line at or after `j` that shows code under its comments. */
  function NextCode(lines: seq<string>, j: nat): (r: nat)
    requires j <= |lines|
    ensures j <= r <= |lines|
    decreases |lines| - j
  {
    if j == |lines| || StripLeadingComments(lines[j]) != "" then j else NextCode(lines, j + 1)
  }

  predicate OpensContinuation(head: string) {
    HasAt(head, 0, "}") || HasAt(head, 0, "else")
  }

  /** A unit ends with line `i`: a statement ends there, outside comments, and neither a closing brace
      nor an else follows. */
  predicate IsBoundary(lines: seq<string>, i: nat)
    requires i < |lines|
  {
    var st := ScanLines(FRESH, lines[..i + 1]);
    && !st.inBlock && st.sawCode && EndsStatement(lines[i]) && !Continued(lines[i])
    && var j := NextCode(lines, i + 1);
       j == |lines| || !OpensContinuation(StripLeadingComments(lines[j]))
  }

  function NextBoundary(lines: seq<string>, i: nat): (b: nat)
    requires i <= |lines|
    ensures i <= b <= |lines| && (b < |lines| ==> IsBoundary(lines, b))
    decreases |lines| - i
  {
    if i == |lines| || IsBoundary(lines, i) then i else NextBoundary(lines, i + 1)
  }

  /** The units: maximal runs of lines ending at a boundary, and what is left. */
  function UnitsFrom(lines: seq<string>, from: nat): seq<string>
    requires from <= |lines|
    decreases |lines| - from
  {
    if from == |lines| then []
    else
      var b := NextBoundary(lines, from);
      if b == |lines| then [JoinLines(lines[from..])]
      else [JoinLines(lines[from..b + 1])] + UnitsFrom(lines, b + 1)
  }

  /** Peeks past blank and comment-only lines. */
  method PeekCode(lines: seq<string>, i: nat) returns (j: nat)
    requires i <= |lines|
    ensures j == NextCode(lines, i)
  {
    j := i;
    while j < |lines| && StripLeadingComments(lines[j]) == ""
      invariant i <= j <= |lines| && NextCode(lines, i) == NextCode(lines, j)
    {
      j := j + 1;
    }
  }

  lemma ScanOneMore(lines: seq<string>, i: nat)
    requires i < |lines|
    ensures ScanLines(FRESH, lines[..i + 1]) == ScanLineFn(ScanLines(FRESH, lines[..i]), lines[i])
  {
    assert lines[..i + 1][..i] == lines[..i];
  }

  lemma SliceGrows(lines: seq<string>, from: nat, i: nat)
    requires from <= i < |lines|
    ensures lines[from..i] + [lines[i]] == lines[from..i + 1]
  {
  }

  lemma WholeTail(lines: seq<string>, from: nat)
    requires from <= |lines|
    ensures lines[..|lines|] == lines && lines[from..|lines|] == lines[from..]
  {
  }

  lemma Regroup(a: seq<string>, x: string, b: seq<string>)
    ensures a + ([x] + b) == (a + [x]) + b
  {
  }

  lemma UnitCloses(lines: seq<string>, from: nat, i: nat)
    requires from <= i < |lines| && IsBoundary(lines, i) && NextBoundary(lines, from) == NextBoundary(lines, i)
    ensures UnitsFrom(lines, from) == [JoinLines(lines[from..i + 1])] + UnitsFrom(lines, i + 1)
  {
    hide IsBoundary;
  }

  lemma UnitStaysOpen(lines: seq<string>, i: nat)
    requires i < |lines| && !IsBoundary(lines, i)
    ensures NextBoundary(lines, i) == NextBoundary(lines, i + 1)
  {
    hide IsBoundary;
  }

  /** Whether the unit read so far ends with line `i`: the statement test, then the lookahead. */
  method EndsUnit(lines: seq<string>, i: nat, sc: SliceScanner) returns (ends: bool)
    requires i < |lines| && sc.State() == ScanLines(FRESH, lines[..i + 1])
    ensures ends == IsBoundary(lines, i)
  {
    if sc.inBlock || !sc.sawCode || !EndsStatement(lines[i]) || Continued(lines[i]) {
      return false;
    }
    var j := PeekCode(lines, i + 1);
    return j == |lines| || !OpensContinuation(StripLeadingComments(lines[j]));
  }

  /** Units closed, and lines of the open unit, after the first `i` lines. */
  function SplitUpTo(lines: seq<string>, i: nat): (seq<string>, seq<string>)
    requires i <= |lines|
  {
    if i == 0 then ([], [])
    else
      var (units, cur) := SplitUpTo(lines, i - 1);
      var unit := cur + [lines[i - 1]];
      if IsBoundary(lines, i - 1) then (units + [JoinLines(unit)], []) else (units, unit)
  }

  /** The closed units and the open one are the units read so far. */
  lemma {:induction false} SplitUpToIs(lines: seq<string>, i: nat) returns (from: nat)
    requires i <= |lines|
    ensures var (units, cur) := SplitUpTo(lines, i);
            from <= i && cur == lines[from..i] && NextBoundary(lines, from) == NextBoundary(lines, i) &&
            UnitsFrom(lines, 0) == units + UnitsFrom(lines, from)
  {
    hide IsBoundary, JoinLines, NextBoundary, UnitsFrom;
    if i == 0 {
      from := 0;
    } else {
      from := SplitUpToIs(lines, i - 1);
      var (units, cur) := SplitUpTo(lines, i - 1);
      SliceGrows(lines, from, i - 1);
      if IsBoundary(lines, i - 1) {
        UnitCloses(lines, from, i - 1);
        Regroup(units, JoinLines(lines[from..i]), UnitsFrom(lines, i));
        from := i;
      } else {
        UnitStaysOpen(lines, i - 1);
      }
    }
  }

  lemma SplitUpToAll(lines: seq<string>)
    ensures var (units, cur) := SplitUpTo(lines, |lines|);
            UnitsFrom(lines, 0) == if cur == [] then units else units + [JoinLines(cur)]
  {
    hide JoinLines;
    var from := SplitUpToIs(lines, |lines|);
    var (units, cur) := SplitUpTo(lines, |lines|);
    WholeTail(lines, from);
    assert units + [] == units;
  }

  method SplitStatements(view: string) returns (units: seq<string>)
    ensures units == UnitsFrom(SplitLines(view), 0)
  {
    var lines := SplitLines(view);
    var sc := new SliceScanner();
    units := [];
    var cur: seq<string> := [];
    for i := 0 to |lines|
      invariant (units, cur) == SplitUpTo(lines, i)
      invariant sc.State() == ScanLines(FRESH, lines[..i])
      invariant fresh(sc)
    {
      ScanOneMore(lines, i);
      sc.ScanLine(lines[i]);
      cur := cur + [lines[i]];
      var ends := EndsUnit(lines, i, sc);
      if ends {
        units := units + [JoinLines(cur)];
        cur := [];
      }
    }
    WholeTail(lines, 0);
    SplitUpToAll(lines);
    if |cur| > 0 {
      units := units + [JoinLines(cur)];
    }
  }

  /** Newline-joining the units gives the view back. */
  lemma {:induction false} UnitsLossless(lines: seq<string>, from: nat)
    requires from < |lines|
    ensures UnitsFrom(lines, from) != [] && JoinLines(UnitsFrom(lines, from)) == JoinLines(lines[from..])
    decreases |lines| - from
  {
    hide JoinLines, IsBoundary;
    var b := NextBoundary(lines, from);
    if b + 1 < |lines| {
      UnitsLossless(lines, b + 1);
      JoinOne(JoinLines(lines[from..b + 1]));
      var unit, rest := JoinLines(lines[from..b + 1]), UnitsFrom(lines, b + 1);
      JoinConcat([unit], rest);
      JoinConcat(lines[from..b + 1], lines[b + 1..]);
      assert lines[from..] == lines[from..b + 1] + lines[b + 1..];
    } else {
      WholeTail(lines, from);
      var unit := JoinLines(lines[from..]);
      JoinOne(unit);
      if b + 1 == |lines| {
        assert lines[from..b + 1] == lines[from..];
        assert UnitsFrom(lines, b + 1) == [];
        assert [unit] + [] == [unit];
      }
    }
  }

  lemma JoinOne(u: string)
    ensures JoinLines([u]) == u
  {
  }

  lemma SplitLossless(view: string)
    ensures UnitsFrom(SplitLines(view), 0) != [] && JoinLines(UnitsFrom(SplitLines(view), 0)) == view
  {
    UnitsLossless(SplitLines(view), 0);
    assert SplitLines(view)[0..] == SplitLines(view);
    JoinSplitLines(view);
  }

  // ---------------------------------------------------------------- else-chains

  /** The first line of `lines` that shows code under its comments, stripped; empty when there is none. */
  function FirstCode(lines: seq<string>): string {
    if lines == [] then ""
    else if StripLeadingComments(lines[0]) != "" then StripLeadingComments(lines[0])
    else FirstCode(lines[1..])
  }

  predicate ContinuesChain(head: string) {
    HasAt(head, 0, "else") || (HasAt(head, 0, "}") && IndexFrom(head, 0, "else").Some?)
  }

  /** The unit continues an if-chain opened by an earlier unit. */
  predicate StartsChainContinuation(unit: string) {
    ContinuesChain(FirstCode(SplitLines(unit)))
  }

  predicate HasCode(unit: string) {
    FirstCode(SplitLines(unit)) != ""
  }

  method ScanContinuation(unit: string) returns (r: bool)
    ensures r == StartsChainContinuation(unit)
  {
    var lines := SplitLines(unit);
    for i := 0 to |lines|
      invariant FirstCode(lines) == FirstCode(lines[i..])
    {
      assert lines[i..][1..] == lines[i + 1..];
      var s := StripLeadingComments(lines[i]);
      if s == "" {
        continue;
      }
      return HasAt(s, 0, "else") || (HasAt(s, 0, "}") && IndexFrom(s, 0, "else").Some?);
    }
    return false;
  }

  lemma {:induction false} FirstCodeConcat(a: seq<string>, b: seq<string>)
    ensures FirstCode(a + b) == if FirstCode(a) != "" then FirstCode(a) else FirstCode(b)
  {
    if a == [] {
      assert a + b == b;
    } else {
      assert (a + b)[1..] == a[1..] + b;
      FirstCodeConcat(a[1..], b);
    }
  }

  /** Appending to a unit that has code changes neither that nor how it starts. */
  lemma CodeDecides(u: string, v: string)
    requires HasCode(u)
    ensures HasCode(u + "\n" + v) && (StartsChainContinuation(u + "\n" + v) <==> StartsChainContinuation(u))
  {
    SplitConcat(u, v);
    FirstCodeConcat(SplitLines(u), SplitLines(v));
  }

  /** Every unit but the last has code. */
  predicate AllCoded(units: seq<string>) {
    forall k :: 0 <= k < |units| - 1 ==> HasCode(units[k])
  }

  lemma {:induction false} LastLineCoded(lines: seq<string>)
    requires lines != [] && StripLeadingComments(lines[|lines| - 1]) != ""
    ensures FirstCode(lines) != ""
  {
    if StripLeadingComments(lines[0]) == "" {
      LastLineCoded(lines[1..]);
    }
  }

  lemma BoundaryCoded(lines: seq<string>, from: nat, b: nat)
    requires from <= b < |lines| && IsBoundary(lines, b) && forall k :: 0 <= k < |lines| ==> OneLine(lines[k])
    ensures HasCode(JoinLines(lines[from..b + 1]))
  {
    var unit := lines[from..b + 1];
    assert StripLeadingComments(lines[b]) != "" by {
      hide ScanLines, NextCode;
      var a, c := TrimSplit(lines[b]);
      CodeUnderComments(Trim(lines[b]));
    }
    hide IsBoundary, StripLeadingComments, JoinLines, SplitLines, FirstCode;
    SplitJoinLines(unit);
    LastLineCoded(unit);
  }

  lemma {:induction false} UnitsCoded(lines: seq<string>, from: nat)
    requires from <= |lines| && forall k :: 0 <= k < |lines| ==> OneLine(lines[k])
    ensures AllCoded(UnitsFrom(lines, from))
    decreases |lines| - from
  {
    hide IsBoundary, HasCode, JoinLines;
    if from < |lines| {
      var b := NextBoundary(lines, from);
      if b < |lines| {
        UnitsCoded(lines, b + 1);
        BoundaryCoded(lines, from, b);
      }
    }
  }

  /** Continuation units merged into the unit that opened their chain. */
  function Glue(units: seq<string>): (out: seq<string>)
    ensures units == [] <==> out == []
    ensures |out| <= |units|
  {
    if units == [] then []
    else
      var n := |units| - 1;
      var out, u := Glue(units[..n]), units[n];
      if Joins(out, u) then out[..|out| - 1] + [out[|out| - 1] + "\n" + u]
      else out + [u]
  }

  /** The unit joins the chain in front of it. */
  predicate Joins(out: seq<string>, u: string) {
    out != [] && StartsChainContinuation(u)
  }

  lemma GlueNext(units: seq<string>, i: nat)
    requires i < |units|
    ensures var out, u := Glue(units[..i]), units[i];
            Glue(units[..i + 1]) == if Joins(out, u) then out[..|out| - 1] + [out[|out| - 1] + "\n" + u] else out + [u]
  {
    hide StartsChainContinuation;
    assert units[..i + 1][..i] == units[..i];
  }

  method GlueChainUnits(units: seq<string>) returns (out: seq<string>)
    ensures out == Glue(units)
  {
    hide StartsChainContinuation, Glue;
    out := [];
    for i := 0 to |units|
      invariant out == Glue(units[..i])
    {
      GlueNext(units, i);
      var u := units[i];
      var continues := ScanContinuation(u);
      if |out| > 0 && continues {
        out := out[..|out| - 1] + [out[|out| - 1] + "\n" + u];
      } else {
        out := out + [u];
      }
    }
    assert units[..|units|] == units;
  }

  /** Joining the last two elements early makes no difference. */
  lemma JoinLast(a: seq<string>, x: string, u: string)
    ensures JoinLines(a + [x + "\n" + u]) == JoinLines(a + [x] + [u])
  {
    assert a + [x] + [u] == a + [x, u];
    assert JoinLines([x, u]) == x + "\n" + u by {
      assert [x, u][1..] == [u];
    }
    if a != [] {
      JoinConcat(a, [x, u]);
      JoinConcat(a, [x + "\n" + u]);
    } else {
      assert a + [x, u] == [x, u] && a + [x + "\n" + u] == [x + "\n" + u];
    }
  }

  lemma {:induction false} GlueLossless(units: seq<string>)
    ensures JoinLines(Glue(units)) == JoinLines(units)
  {
    hide JoinLines, StartsChainContinuation;
    if units != [] {
      var n := |units| - 1;
      GlueLossless(units[..n]);
      assert units == units[..n] + [units[n]];
      var out, u := Glue(units[..n]), units[n];
      if out == [] {
        assert units == [u];
      } else {
        JoinConcat(units[..n], [u]);
        JoinConcat(out, [u]);
        JoinLast(out[..|out| - 1], out[|out| - 1], u);
        assert out[..|out| - 1] + [out[|out| - 1]] + [u] == out + [u];
      }
    }
  }

  /** No glued unit after the first starts with a continuation, and all but the last have code. */
  lemma {:induction false} GlueHeads(units: seq<string>)
    requires AllCoded(units)
    ensures GluedHeads(Glue(units))
    ensures units != [] && HasCode(units[|units| - 1]) ==> HasCode(Glue(units)[|Glue(units)| - 1])
  {
    hide StartsChainContinuation, HasCode, GluedHeads;
    if units == [] {
      GluedShort("");
    } else {
      var n := |units| - 1;
      assert AllCoded(units[..n]);
      GlueHeads(units[..n]);
      if n > 0 {
        assert HasCode(units[n - 1]) && units[..n][n - 1] == units[n - 1];
        GlueOne(Glue(units[..n]), units[n]);
      } else {
        assert Glue(units) == [units[0]];
        GluedShort(units[0]);
      }
    }
  }

  ghost predicate GluedHeads(out: seq<string>) {
    AllCoded(out) && forall k :: 1 <= k < |out| ==> !StartsChainContinuation(out[k])
  }

  lemma GluedShort(u: string)
    ensures GluedHeads([]) && GluedHeads([u])
  {
  }

  lemma GlueOne(out: seq<string>, u: string)
    requires out != [] && GluedHeads(out) && HasCode(out[|out| - 1])
    ensures StartsChainContinuation(u) ==> GluedHeads(out[..|out| - 1] + [out[|out| - 1] + "\n" + u])
    ensures HasCode(out[|out| - 1] + "\n" + u)
    ensures !StartsChainContinuation(u) ==> GluedHeads(out + [u])
  {
    hide StartsChainContinuation, HasCode;
    CodeDecides(out[|out| - 1], u);
  }

  // ---------------------------------------------------------------- brace padding

  /** The lowest depth at any line end, counting the start. */
  function MinDepth(lines: seq<string>): (m: int)
    ensures m <= 0
  {
    if lines == [] then 0
    else
      var m, d := MinDepth(lines[..|lines| - 1]), ScanLines(FRESH, lines).depth;
      if d < m then d else m
  }

  method BracePads(fragment: string) returns (prefix: int, suffix: int)
    ensures var lines := SplitLines(fragment);
            prefix == -MinDepth(lines) && suffix == prefix + ScanLines(FRESH, lines).depth
  {
    var lines := SplitLines(fragment);
    var sc := new SliceScanner();
    var minDepth := 0;
    for i := 0 to |lines|
      invariant sc.State() == ScanLines(FRESH, lines[..i]) && minDepth == MinDepth(lines[..i])
      invariant fresh(sc)
    {
      assert lines[..i + 1][..i] == lines[..i];
      sc.ScanLine(lines[i]);
      if sc.depth < minDepth {
        minDepth := sc.depth;
      }
    }
    assert lines[..|lines|] == lines;
    prefix := 0;
    if minDepth < 0 {
      prefix := -minDepth;
    }
    suffix := prefix + sc.depth;
    MinDepthBounds(lines);
    if suffix < 0 {
      suffix := 0;
    }
  }

  lemma {:induction false} MinDepthBounds(lines: seq<string>)
    ensures MinDepth(lines) <= ScanLines(FRESH, lines).depth
    ensures forall k :: 0 <= k <= |lines| ==> MinDepth(lines) <= ScanLines(FRESH, lines[..k]).depth
    ensures exists k :: 0 <= k <= |lines| && MinDepth(lines) == ScanLines(FRESH, lines[..k]).depth
  {
    assert lines[..|lines|] == lines;
    if lines == [] {
      assert ScanLines(FRESH, lines[..0]).depth == 0;
    } else {
      var n := |lines| - 1;
      MinDepthBounds(lines[..n]);
      forall k | 0 <= k <= n ensures lines[..n][..k] == lines[..k] {
      }
      var k :| 0 <= k <= n && MinDepth(lines[..n]) == ScanLines(FRESH, lines[..n][..k]).depth;
      assert MinDepth(lines[..n]) == ScanLines(FRESH, lines[..k]).depth;
    }
  }

  lemma DepthShiftStep(st: Scan, d: int, line: string, i: nat)
    requires i < |line|
    ensures var (r, j) := ScanStep(st, line, i);
            ScanStep(st.(depth := st.depth + d), line, i) == (r.(depth := r.depth + d), j)
  {
  }

  /** Starting deeper only makes everything deeper. */
  lemma {:induction false} DepthShiftFrom(st: Scan, d: int, line: string, i: nat)
    ensures ScanFrom(st.(depth := st.depth + d), line, i) ==
            var r := ScanFrom(st, line, i); r.(depth := r.depth + d)
    decreases |line| - i
  {
    hide ScanStep;
    if i < |line| {
      DepthShiftStep(st, d, line, i);
      var (r, j) := ScanStep(st, line, i);
      DepthShiftFrom(r, d, line, j);
    }
  }

  lemma {:induction false} DepthShift(st: Scan, d: int, lines: seq<string>)
    ensures ScanLines(st.(depth := st.depth + d), lines) ==
            var r := ScanLines(st, lines); r.(depth := r.depth + d)
  {
    hide ScanFrom;
    if lines != [] {
      DepthShift(st, d, lines[..|lines| - 1]);
      DepthShiftFrom(ScanLines(st, lines[..|lines| - 1]).(sawCode := false), d, lines[|lines| - 1], 0);
    }
  }

  function Braces(ch: char, n: nat): string {
    seq(n, _ => ch)
  }

  lemma {:induction false} ScanBraces(st: Scan, ch: char, n: nat, i: nat)
    requires (ch == '{' || ch == '}') && i <= n
    ensures InCode(st) ==>
              ScanFrom(st, Braces(ch, n), i).depth == st.depth + (if ch == '{' then 1 else -1) * (n - i)
    ensures InCode(st) ==> InCode(ScanFrom(st, Braces(ch, n), i)) && ScanFrom(st, Braces(ch, n), i).escaped == st.escaped
    ensures !InCode(st) ==> ScanFrom(st, Braces(ch, n), i).depth == st.depth
    decreases n - i
  {
    if i < n {
      var step := if ch == '{' then 1 else -1;
      if InCode(st) {
        ScanBraces(st.(depth := st.depth + step, sawCode := true), ch, n, i + 1);
        assert step * (n - i) == step + step * (n - (i + 1));
      } else if st.inBlock {
        ScanBraces(st, ch, n, i + 1);
      } else {
        ScanBraces(if st.escaped then st.(escaped := false) else st, ch, n, i + 1);
      }
    }
  }

  /** The fragment as the parse check sees it: opening pad, the lines, closing pad. */
  function Padded(prefix: nat, lines: seq<string>, suffix: nat): seq<string> {
    [Braces('{', prefix)] + lines + [Braces('}', suffix)]
  }

  lemma {:induction false} ScanConcat(st: Scan, a: seq<string>, b: seq<string>)
    ensures ScanLines(st, a + b) == ScanLines(ScanLines(st, a), b)
  {
    if b == [] {
      assert a + b == a;
    } else {
      var n := |b| - 1;
      assert (a + b)[..|a| + n] == a + b[..n];
      ScanConcat(st, a, b[..n]);
    }
  }

  /** After the opening pad, the fragment is scanned as it was, that much deeper. */
  lemma PaddedScan(p: nat, lines: seq<string>, k: nat)
    requires k <= |lines|
    ensures ScanLines(FRESH, [Braces('{', p)] + lines[..k]).depth == p + ScanLines(FRESH, lines[..k]).depth
    ensures InCode(ScanLines(FRESH, [Braces('{', p)] + lines[..k])) <==> InCode(ScanLines(FRESH, lines[..k]))
  {
    var pad := [Braces('{', p)];
    ScanConcat(FRESH, pad, lines[..k]);
    var st := ScanLines(FRESH, pad);
    assert pad[..0] == [];
    ScanBraces(FRESH, '{', p, 0);
    if k == 0 {
      assert lines[..0] == [];
    } else {
      FreshEnough(st, p, lines[..k]);
    }
  }

  /** The code marker is reset by every line, so only depth and mode carry over. */
  lemma FreshEnough(st: Scan, p: int, lines: seq<string>)
    requires lines != [] && InCode(st) && !st.escaped && st.depth == p
    ensures ScanLines(st, lines) == var r := ScanLines(FRESH, lines); r.(depth := r.depth + p)
  {
    DepthShift(FRESH, p, lines);
    assert FRESH.(depth := FRESH.depth + p) == st.(sawCode := false);
    SawCodeReset(st, lines);
  }

  lemma {:induction false} SawCodeReset(st: Scan, lines: seq<string>)
    requires lines != []
    ensures ScanLines(st, lines) == ScanLines(st.(sawCode := false), lines)
  {
    if |lines| > 1 {
      SawCodeReset(st, lines[..|lines| - 1]);
    }
  }

  /** Some line end lies below depth zero although `p` braces were opened before the lines. */
  ghost predicate DipsBelow(lines: seq<string>, p: nat) {
    exists k: nat :: k <= |lines| && ScanLines(FRESH, [Braces('{', p)] + lines[..k]).depth < 0
  }

  /** The opening pad is the least that keeps every line end at depth zero or more. */
  lemma PrefixLeast(lines: seq<string>, p: nat)
    ensures DipsBelow(lines, p) <==> p < -MinDepth(lines)
  {
    hide ScanLines, Braces;
    MinDepthBounds(lines);
    forall k: nat | k <= |lines|
      ensures ScanLines(FRESH, [Braces('{', p)] + lines[..k]).depth == p + ScanLines(FRESH, lines[..k]).depth
    {
      PaddedScan(p, lines, k);
    }
    if p < -MinDepth(lines) {
      var k: nat :| k <= |lines| && MinDepth(lines) == ScanLines(FRESH, lines[..k]).depth;
      assert ScanLines(FRESH, [Braces('{', p)] + lines[..k]).depth < 0;
    }
  }

  /** The closing pad is never negative, so its clamp never acts; padded on both sides the fragment ends at
      depth zero exactly when it ends outside strings and comments or nothing had to be closed. */
  lemma PadsBalance(lines: seq<string>)
    ensures var p := -MinDepth(lines);
            var s := p + ScanLines(FRESH, lines).depth;
            && s >= 0 && ScanLines(FRESH, Padded(p, lines, s)).depth >= 0
            && (ScanLines(FRESH, Padded(p, lines, s)).depth == 0 <==> InCode(ScanLines(FRESH, lines)) || s == 0)
  {
    hide Braces, MinDepth, ScanFrom;
    MinDepthBounds(lines);
    var p := -MinDepth(lines);
    var s := p + ScanLines(FRESH, lines).depth;
    PaddedScan(p, lines, |lines|);
    assert lines[..|lines|] == lines;
    var body := [Braces('{', p)] + lines;
    var st := ScanLines(FRESH, body);
    ScanBraces(st.(sawCode := false), '}', s, 0);
  }

  // ---------------------------------------------------------------- pads against every character

  /** The depth after each turn of the character loop, from position `i` on. */
  function LineDepths(st: Scan, line: string, i: nat): seq<int>
    decreases |line| - i
  {
    if i >= |line| then []
    else
      var (st', j) := ScanStep(st, line, i);
      [st'.depth] + LineDepths(st', line, j)
  }

  function Depths(st: Scan, lines: seq<string>): seq<int> {
    if lines == [] then []
    else
      var n := |lines| - 1;
      Depths(st, lines[..n]) + LineDepths(ScanLines(st, lines[..n]).(sawCode := false), lines[n], 0)
  }

  /** The least of the depths, counting the start. */
  function Lowest(ds: seq<int>): (m: int)
    ensures m <= 0 && (forall k :: 0 <= k < |ds| ==> m <= ds[k]) && (m == 0 || m in ds)
  {
    if ds == [] then 0
    else
      var m, d := Lowest(ds[..|ds| - 1]), ds[|ds| - 1];
      if d < m then d else m
  }

  ghost predicate NoDip(ds: seq<int>) {
    forall k :: 0 <= k < |ds| ==> ds[k] >= 0
  }

  /** One list of depths is another, so much deeper. */
  ghost predicate DeeperBy(d: int, ds: seq<int>, es: seq<int>) {
    |es| == |ds| && forall k :: 0 <= k < |ds| ==> es[k] == ds[k] + d
  }

  lemma {:induction false} LineDepthsShift(st: Scan, d: int, line: string, i: nat)
    ensures DeeperBy(d, LineDepths(st, line, i), LineDepths(st.(depth := st.depth + d), line, i))
    decreases |line| - i
  {
    hide ScanStep;
    if i < |line| {
      DepthShiftStep(st, d, line, i);
      var (r, j) := ScanStep(st, line, i);
      LineDepthsShift(r, d, line, j);
    }
  }

  lemma DeeperConcat(d: int, a: seq<int>, b: seq<int>, a': seq<int>, b': seq<int>)
    requires DeeperBy(d, a, a') && DeeperBy(d, b, b')
    ensures DeeperBy(d, a + b, a' + b')
  {
  }

  lemma {:induction false} DepthsShift(st: Scan, d: int, lines: seq<string>)
    ensures DeeperBy(d, Depths(st, lines), Depths(st.(depth := st.depth + d), lines))
  {
    hide ScanLines, LineDepths, DeeperBy;
    if lines != [] {
      var n := |lines| - 1;
      DepthsShift(st, d, lines[..n]);
      DepthShift(st, d, lines[..n]);
      LineDepthsShift(ScanLines(st, lines[..n]).(sawCode := false), d, lines[n], 0);
      DeeperConcat(d, Depths(st, lines[..n]), LineDepths(ScanLines(st, lines[..n]).(sawCode := false), lines[n], 0),
                   Depths(st.(depth := st.depth + d), lines[..n]),
                   LineDepths(ScanLines(st.(depth := st.depth + d), lines[..n]).(sawCode := false), lines[n], 0));
    } else {
      NothingDeeper(d);
    }
  }

  lemma NothingDeeper(d: int)
    ensures DeeperBy(d, [], [])
  {
  }

  lemma {:induction false} DepthsConcat(st: Scan, a: seq<string>, b: seq<string>)
    ensures Depths(st, a + b) == Depths(st, a) + Depths(ScanLines(st, a), b)
  {
    hide ScanLines, LineDepths;
    if b == [] {
      assert a + b == a;
    } else {
      var n := |b| - 1;
      assert (a + b)[..|a| + n] == a + b[..n] && (a + b)[|a| + n] == b[n];
      DepthsConcat(st, a, b[..n]);
      ScanConcat(st, a, b[..n]);
    }
  }

  lemma {:induction false} DepthsReset(st: Scan, lines: seq<string>)
    ensures Depths(st, lines) == Depths(st.(sawCode := false), lines)
  {
    hide LineDepths, ScanLineFn;
    if lines != [] {
      var n := |lines| - 1;
      DepthsReset(st, lines[..n]);
      if n > 0 {
        SawCodeReset(st, lines[..n]);
      } else {
        assert lines[..n] == [];
      }
    }
  }

  /** Braces that open never dip, nor do those that close no more than is open. */
  lemma {:induction false} BraceDepths(st: Scan, ch: char, n: nat, i: nat)
    requires (ch == '{' || ch == '}') && i <= n && st.depth >= 0
    requires InCode(st) && ch == '}' ==> st.depth >= n - i
    ensures NoDip(LineDepths(st, Braces(ch, n), i))
    decreases n - i
  {
    if i < n {
      var step := if ch == '{' then 1 else -1;
      if InCode(st) {
        BraceDepths(st.(depth := st.depth + step, sawCode := true), ch, n, i + 1);
      } else if st.inBlock {
        BraceDepths(st, ch, n, i + 1);
      } else {
        BraceDepths(if st.escaped then st.(escaped := false) else st, ch, n, i + 1);
      }
    }
  }

  lemma {:induction false} LineEndDepth(st: Scan, line: string, i: nat)
    ensures ScanFrom(st, line, i).depth == st.depth || ScanFrom(st, line, i).depth in LineDepths(st, line, i)
    decreases |line| - i
  {
    hide ScanStep;
    if i < |line| {
      var (r, j) := ScanStep(st, line, i);
      LineEndDepth(r, line, j);
    }
  }

  lemma LowestConcat(a: seq<int>, b: seq<int>)
    ensures Lowest(a + b) <= Lowest(a) && forall d :: d in b ==> Lowest(a + b) <= d
  {
    assert Lowest(a) != 0 ==> Lowest(a) in a + b;
    assert forall d :: d in b ==> d in a + b;
  }

  /** Line ends are among the characters. */
  lemma {:induction false} LowestBelowLineEnds(lines: seq<string>)
    ensures Lowest(Depths(FRESH, lines)) <= MinDepth(lines)
    ensures Lowest(Depths(FRESH, lines)) <= ScanLines(FRESH, lines).depth
  {
    hide ScanFrom, LineDepths, Lowest;
    if lines != [] {
      var n := |lines| - 1;
      var st := ScanLines(FRESH, lines[..n]).(sawCode := false);
      LowestBelowLineEnds(lines[..n]);
      LineEndDepth(st, lines[n], 0);
      LowestConcat(Depths(FRESH, lines[..n]), LineDepths(st, lines[n], 0));
    } else {
      assert Lowest([]) <= 0;
    }
  }

  lemma NoDipConcat(a: seq<int>, b: seq<int>)
    ensures NoDip(a + b) <==> NoDip(a) && NoDip(b)
  {
    if NoDip(a + b) {
      assert forall k :: 0 <= k < |a| ==> a[k] == (a + b)[k];
      assert forall k :: 0 <= k < |b| ==> b[k] == (a + b)[|a| + k];
    }
  }

  lemma OneLineDepths(st: Scan, line: string)
    ensures Depths(st, [line]) == LineDepths(st.(sawCode := false), line, 0)
    ensures ScanLines(st, [line]) == ScanLineFn(st, line)
  {
    hide LineDepths, ScanLineFn;
    assert [line][..0] == [];
  }

  lemma PaddedDepths(p: nat, lines: seq<string>, s: nat)
    requires s == p + ScanLines(FRESH, lines).depth
    ensures NoDip(Depths(FRESH, Padded(p, lines, s))) <==> p >= -Lowest(Depths(FRESH, lines))
  {
    hide ScanLines, ScanLineFn, LineDepths, Braces, Depths, ScanFrom, NoDip, DeeperBy, Lowest;
    var open, close := [Braces('{', p)], [Braces('}', s)];
    DepthsConcat(FRESH, open + lines, close);
    DepthsConcat(FRESH, open, lines);
    ScanConcat(FRESH, open, lines);
    NoDipConcat(Depths(FRESH, open + lines), Depths(ScanLines(FRESH, open + lines), close));
    var st := ScanLines(FRESH, open);
    NoDipConcat(Depths(FRESH, open), Depths(st, lines));
    OneLineDepths(FRESH, open[0]);
    BraceDepths(FRESH, '{', p, 0);
    AfterOpening(p, lines);
    var end := ScanLines(FRESH, open + lines);
    assert lines[..|lines|] == lines;
    PaddedScan(p, lines, |lines|);
    OneLineDepths(end, close[0]);
    BraceDepths(end.(sawCode := false), '}', s, 0);
    NoDipDeeper(p, Depths(FRESH, lines), Depths(st, lines));
  }

  /** Behind `p` opening braces every character stands `p` deeper. */
  lemma AfterOpening(p: nat, lines: seq<string>)
    ensures DeeperBy(p, Depths(FRESH, lines), Depths(ScanLines(FRESH, [Braces('{', p)]), lines))
  {
    hide ScanLines, ScanFrom, Depths, DeeperBy;
    var st := ScanLines(FRESH, [Braces('{', p)]);
    OneLineDepths(FRESH, Braces('{', p));
    ScanBraces(FRESH, '{', p, 0);
    assert st.(sawCode := false) == FRESH.(depth := FRESH.depth + p);
    DepthsReset(st, lines);
    DepthsShift(FRESH, p, lines);
  }

  lemma NoDipDeeper(p: nat, ds: seq<int>, es: seq<int>)
    requires DeeperBy(p, ds, es)
    ensures NoDip(es) <==> p >= -Lowest(ds)
  {
    if NoDip(es) && Lowest(ds) != 0 {
      var k :| 0 <= k < |ds| && ds[k] == Lowest(ds);
      assert es[k] >= 0;
    }
  }

  /** The computed pads keep every character of the fragment at depth zero or more exactly when no character lies
      deeper below the start than some line end does. */
  lemma PadsCoverIff(lines: seq<string>)
    ensures var p := -MinDepth(lines);
            NoDip(Depths(FRESH, Padded(p, lines, p + ScanLines(FRESH, lines).depth)))
            <==> Lowest(Depths(FRESH, lines)) == MinDepth(lines)
  {
    hide ScanLines, Depths, Lowest, MinDepth, NoDip;
    MinDepthBounds(lines);
    LowestBelowLineEnds(lines);
    var p := -MinDepth(lines);
    PaddedDepths(p, lines, p + ScanLines(FRESH, lines).depth);
  }

  /** Depth is sampled at line ends only: a line that closes and reopens a block gets no pad, although its
      first character closes a block the fragment never opened. */
  lemma PadsMissDip()
    ensures var lines := [DIP_LINE];
            && MinDepth(lines) == 0 && ScanLines(FRESH, lines).depth == 0 && Lowest(Depths(FRESH, lines)) == -1
            && !NoDip(Depths(FRESH, Padded(0, lines, 0)))
  {
    DipLine(DIP_LINE);
    DipOf(DIP_LINE);
  }

  lemma DipOf(line: string)
    requires LineDepths(FRESH, line, 0) == [-1, -1, -1, -1, -1, 0] && ScanFrom(FRESH, line, 0).depth == 0
    ensures var lines := [line];
            && MinDepth(lines) == 0 && ScanLines(FRESH, lines).depth == 0 && Lowest(Depths(FRESH, lines)) == -1
            && !NoDip(Depths(FRESH, Padded(0, lines, 0)))
  {
    OneLineDepths(FRESH, line);
    assert [line][..0] == [];
    PadsCoverIff([line]);
    hide LineDepths, ScanFrom, Depths, Padded, NoDip;
    var ds := Depths(FRESH, [line]);
    assert ds[0] == -1;
  }

  const DIP_LINE := "}else{"

  lemma DipTurn(k: nat)
    requires 1 <= k < 5
    ensures ScanStep(Scan(-1, false, false, false, false, true), DIP_LINE, k) == (Scan(-1, false, false, false, false, true), k + 1)
  {
  }

  lemma DipLine(line: string)
    requires line == DIP_LINE
    ensures LineDepths(FRESH, line, 0) == [-1, -1, -1, -1, -1, 0]
    ensures ScanFrom(FRESH, line, 0) == Scan(0, false, false, false, false, true)
  {
    var st, end := Scan(-1, false, false, false, false, true), Scan(0, false, false, false, false, true);
    assert ScanStep(FRESH, line, 0) == (st, 1) && ScanStep(st, line, 5) == (end, 6);
    forall k: nat | 1 <= k < 5 ensures ScanStep(st, line, k) == (st, k + 1) {
      DipTurn(k);
    }
    hide ScanStep;
    assert LineDepths(end, line, 6) == [] && ScanFrom(end, line, 6) == end;
    assert LineDepths(st, line, 5) == [0] && ScanFrom(st, line, 5) == end;
    assert LineDepths(st, line, 4) == [-1, 0] && ScanFrom(st, line, 4) == end;
    assert LineDepths(st, line, 3) == [-1, -1, 0] && ScanFrom(st, line, 3) == end;
    assert LineDepths(st, line, 2) == [-1, -1, -1, 0] && ScanFrom(st, line, 2) == end;
    assert LineDepths(st, line, 1) == [-1, -1, -1, -1, 0] && ScanFrom(st, line, 1) == end;
  }
}
