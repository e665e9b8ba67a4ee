/** Whether an if-chain survives the cut into fragments: the line that opens the block an else-continuation
    closes, and the fragment each of the two lands in. */
module Chains {
  import opened Options
  import opened Text
  import opened Slicer
  import opened Packer
  import opened TokenBudget

  // ---------------------------------------------------------------- continuations and their openers

  /** The line goes on with a chain begun above it. */
  predicate Continues(lines: seq<string>, j: nat) {
    j < |lines| && ContinuesChain(StripLeadingComments(lines[j]))
  }

  function DepthBefore(lines: seq<string>, k: nat): int
    requires k <= |lines|
  {
    ScanLines(FRESH, lines[..k]).depth
  }

  /** A code line that opened what line `j` continues: it stands below the depth a closing brace closes, or, before
      a bare else, no deeper than the else itself. */
  predicate Opens(lines: seq<string>, i: nat, j: nat)
    requires i < |lines| && j < |lines|
  {
    && StripLeadingComments(lines[i]) != ""
    && if HasAt(StripLeadingComments(lines[j]), 0, "}") then DepthBefore(lines, i) < DepthBefore(lines, j)
       else DepthBefore(lines, i) <= DepthBefore(lines, j)
  }

  /** The last such line before `i`. */
  function OpenerBelow(lines: seq<string>, j: nat, i: nat): (o: Option<nat>)
    requires i <= j < |lines|
    ensures o.Some? ==> o.value < i && Opens(lines, o.value, j)
    ensures forall k :: (if o.Some? then o.value + 1 else 0) <= k < i ==> !Opens(lines, k, j)
  {
    if i == 0 then None else if Opens(lines, i - 1, j) then Some(i - 1) else OpenerBelow(lines, j, i - 1)
  }

  /** Line `j` continues the chain that line `i` opened. */
  predicate ChainLink(lines: seq<string>, i: nat, j: nat) {
    Continues(lines, j) && OpenerBelow(lines, j, j) == Some(i)
  }

  // ---------------------------------------------------------------- which part holds a line

  /** Index of the part that holds line `i` of the parts' joined text. */
  function PartOf(parts: seq<string>, i: nat): nat {
    if parts == [] then 0
    else
      var n := |SplitLines(parts[0])|;
      if i < n then 0 else 1 + PartOf(parts[1..], i - n)
  }

  function LineCount(parts: seq<string>): nat {
    if parts == [] then 0 else |SplitLines(parts[0])| + LineCount(parts[1..])
  }

  /** No continuation is parted from the line that opened its chain. */
  ghost predicate ChainsWhole(lines: seq<string>, parts: seq<string>) {
    forall i, j :: ChainLink(lines, i, j) ==> PartOf(parts, i) == PartOf(parts, j)
  }

  lemma {:induction false} PartOfConcat(g: seq<string>, rest: seq<string>, i: nat)
    ensures if i < LineCount(g) then PartOf(g + rest, i) < |g| else PartOf(g + rest, i) == |g| + PartOf(rest, i - LineCount(g))
  {
    if g == [] {
      assert g + rest == rest;
    } else {
      assert (g + rest)[1..] == g[1..] + rest;
      var n := |SplitLines(g[0])|;
      if i >= n {
        PartOfConcat(g[1..], rest, i - n);
      }
    }
  }

  lemma {:induction false} JoinedLineCount(g: seq<string>)
    requires g != []
    ensures |SplitLines(JoinLines(g))| == LineCount(g)
  {
    if |g| > 1 {
      JoinedLineCount(g[1..]);
      SplitConcat(g[0], JoinLines(g[1..]));
    } else {
      assert g[1..] == [];
    }
  }

  lemma {:induction false} FlattenFront(g: seq<string>, rest: seq<seq<string>>)
    ensures Flatten([g] + rest) == g + Flatten(rest)
  {
    if rest == [] {
      assert [g] + rest == [g] && [g][..0] == [];
      assert [] + g == g + [];
    } else {
      var n := |rest| - 1;
      assert ([g] + rest)[..n + 1] == [g] + rest[..n];
      FlattenFront(g, rest[..n]);
    }
  }

  /** Parts that are joined keep lines together that they held together. */
  lemma {:induction false} JoinedKeepsTogether(groups: seq<seq<string>>, i: nat, j: nat)
    requires NoneEmpty(groups) && PartOf(Flatten(groups), i) == PartOf(Flatten(groups), j)
    ensures PartOf(JoinEach(groups), i) == PartOf(JoinEach(groups), j)
    decreases |groups|
  {
    if groups != [] {
      var g, rest := groups[0], groups[1..];
      assert groups == [g] + rest && JoinEach(groups)[1..] == JoinEach(rest);
      FlattenFront(g, rest);
      PartOfConcat(g, Flatten(rest), i);
      PartOfConcat(g, Flatten(rest), j);
      JoinedLineCount(g);
      var n := LineCount(g);
      if i >= n && j >= n {
        JoinedKeepsTogether(rest, i - n, j - n);
      }
    }
  }

  // ---------------------------------------------------------------- units

  lemma {:induction false} NoBoundaryBefore(lines: seq<string>, from: nat, b: nat)
    requires from <= |lines| && from <= b < NextBoundary(lines, from)
    ensures !IsBoundary(lines, b)
    decreases b - from
  {
    hide IsBoundary;
    if from < b {
      NoBoundaryBefore(lines, from + 1, b);
    }
  }

  ghost predicate BoundaryBetween(lines: seq<string>, i: nat, j: nat) {
    exists b :: i <= b < j && b < |lines| && IsBoundary(lines, b)
  }

  lemma SliceLineCount(lines: seq<string>, from: nat, end: nat)
    requires from < end <= |lines| && AllOneLine(lines)
    ensures |SplitLines(JoinLines(lines[from..end]))| == end - from
  {
    hide OneLine, SplitLines, JoinLines;
    SplitJoinLines(lines[from..end]);
  }

  /** Two lines are in one unit exactly when no unit ends between them. */
  lemma {:induction false} SameUnitIff(lines: seq<string>, from: nat, i: nat, j: nat)
    requires from <= i <= j < |lines| && AllOneLine(lines)
    ensures PartOf(UnitsFrom(lines, from), i - from) == PartOf(UnitsFrom(lines, from), j - from) <==> !BoundaryBetween(lines, i, j)
    decreases |lines| - from
  {
    hide IsBoundary, JoinLines, AllOneLine, NextBoundary, SplitLines;
    var b := NextBoundary(lines, from);
    if b == |lines| {
      WholeTail(lines, from);
      SliceLineCount(lines, from, |lines|);
      forall k | i <= k < j ensures !IsBoundary(lines, k) {
        NoBoundaryBefore(lines, from, k);
      }
    } else {
      SliceLineCount(lines, from, b + 1);
      assert UnitsFrom(lines, from)[1..] == UnitsFrom(lines, b + 1);
      if j <= b {
        forall k | i <= k < j ensures !IsBoundary(lines, k) {
          NoBoundaryBefore(lines, from, k);
        }
      } else if b < i {
        SameUnitIff(lines, b + 1, i, j);
      }
    }
  }

  lemma {:induction false} FirstCodeIs(lines: seq<string>, from: nat, end: nat)
    requires from <= end <= |lines|
    ensures var j := NextCode(lines, from);
            FirstCode(lines[from..end]) == (if j < end then StripLeadingComments(lines[j]) else "")
    decreases end - from
  {
    hide StripLeadingComments;
    if from < end {
      assert lines[from..end][1..] == lines[from + 1..end];
      FirstCodeIs(lines, from + 1, end);
    }
  }

  /** What follows a boundary never continues a chain. */
  lemma AfterBoundary(lines: seq<string>, b: nat, end: nat)
    requires b < end <= |lines| && b + 1 < end && IsBoundary(lines, b) && AllOneLine(lines)
    ensures !StartsChainContinuation(JoinLines(lines[b + 1..end]))
  {
    hide StripLeadingComments, JoinLines, SplitLines, ScanLines, EndsStatement, Continued, OneLine, FirstCode, NextCode;
    FirstCodeIs(lines, b + 1, end);
    SplitJoinLines(lines[b + 1..end]);
  }

  ghost predicate CleanFrom(units: seq<string>, first: nat) {
    forall k :: first <= k < |units| ==> !StartsChainContinuation(units[k])
  }

  lemma CleanBefore(unit: string, rest: seq<string>)
    requires CleanFrom(rest, 0)
    ensures CleanFrom([unit] + rest, 1) && (!StartsChainContinuation(unit) ==> CleanFrom([unit] + rest, 0))
  {
    hide StartsChainContinuation;
  }

  /** No unit that follows a boundary continues a chain. */
  lemma {:induction false} UnitsStartClean(lines: seq<string>, from: nat)
    requires from <= |lines| && AllOneLine(lines)
    ensures CleanFrom(UnitsFrom(lines, from), 1)
    ensures from > 0 && IsBoundary(lines, from - 1) ==> CleanFrom(UnitsFrom(lines, from), 0)
    decreases |lines| - from
  {
    hide IsBoundary, JoinLines, AllOneLine, StartsChainContinuation, CleanFrom;
    NothingClean();
    if from < |lines| {
      var b := NextBoundary(lines, from);
      var end := if b < |lines| then b + 1 else |lines|;
      UnitsStartClean(lines, end);
      WholeTail(lines, from);
      CleanBefore(JoinLines(lines[from..end]), UnitsFrom(lines, end));
      assert UnitsFrom(lines, from) == [JoinLines(lines[from..end])] + UnitsFrom(lines, end);
      if from > 0 && IsBoundary(lines, from - 1) {
        AfterBoundary(lines, from - 1, end);
      }
    }
  }

  lemma NothingClean()
    ensures CleanFrom([], 0) && CleanFrom([], 1)
  {
  }

  lemma {:induction false} NothingToGlue(units: seq<string>)
    requires CleanFrom(units, 1)
    ensures Glue(units) == units
  {
    hide StartsChainContinuation;
    if units != [] {
      var n := |units| - 1;
      NothingToGlue(units[..n]);
      assert units == units[..n] + [units[n]];
      assert Joins(units[..n], units[n]) ==> n >= 1;
    }
  }

  /** The units of a view, as they are packed: gluing them changes nothing. */
  lemma GlueIdle(view: string)
    ensures Glue(UnitsFrom(SplitLines(view), 0)) == UnitsFrom(SplitLines(view), 0)
  {
    hide UnitsFrom, Glue, CleanFrom, OneLine;
    SplitLinesOneLine(view);
    UnitsStartClean(SplitLines(view), 0);
    NothingToGlue(UnitsFrom(SplitLines(view), 0));
  }

  // ---------------------------------------------------------------- every unit a fragment

  function Singles(units: seq<string>): seq<seq<string>> {
    seq(|units|, k requires 0 <= k < |units| => [units[k]])
  }

  lemma {:induction false} MassAbove(sig: string -> nat, units: seq<string>, budget: nat)
    requires units != [] && forall k :: 0 <= k < |units| ==> Weight(sig, units[k]) > budget
    ensures Mass(sig, units) > |units| * budget
  {
    hide Weight;
    var n := |units| - 1;
    if n > 0 {
      MassAbove(sig, units[..n], budget);
    } else {
      assert units[..0] == [];
    }
    assert |units| * budget == n * budget + budget;
  }

  lemma CutBefore(p: Plan, s: Packing, u: string, w: nat)
    requires s.cur != [] && |s.groups| + 1 < p.n && w > p.budget
    ensures PackOne(p, s, u, w, true) == Packing(s.groups + [s.cur], [u], w)
  {
  }

  /** The packing loop when no unit fits the budget. */
  lemma {:induction false} PackAlone(p: Plan, sig: string -> nat, units: seq<string>)
    requires units != [] && p.n >= |units| && forall k :: 0 <= k < |units| ==> Weight(sig, units[k]) > p.budget
    ensures var s := Pack(p, sig, units, true); s.groups == Singles(units[..|units| - 1]) && s.cur == [units[|units| - 1]]
  {
    hide Weight, PackOne;
    var n := |units| - 1;
    var u := units[n];
    if n > 0 {
      assert forall k :: 0 <= k < n ==> units[..n][k] == units[k];
      PackAlone(p, sig, units[..n]);
      var s := Pack(p, sig, units[..n], true);
      SinglesNext(units, n - 1);
      CutBefore(p, s, u, Weight(sig, u));
    } else {
      FirstAlone(p, u, Weight(sig, u));
      assert units[..0] == [] && Pack(p, sig, units[..0], true) == NOTHING;
    }
  }

  lemma FirstAlone(p: Plan, u: string, w: nat)
    ensures PackOne(p, NOTHING, u, w, true) == Packing([], [u], w)
  {
    assert [] + [u] == [u];
  }

  lemma SinglesNext(units: seq<string>, k: nat)
    requires k < |units|
    ensures Singles(units[..k + 1]) == Singles(units[..k]) + [[units[k]]] && units[..k + 1][..k] == units[..k]
  {
  }

  /** Under a budget no unit meets, every unit becomes its own fragment. */
  lemma EachAlone(units: seq<string>, budget: nat, sig: string -> nat)
    requires units != [] && budget >= 1 && forall k :: 0 <= k < |units| ==> Weight(sig, units[k]) > budget
    ensures JoinEach(Groups(units, budget, sig)) == units
  {
    hide Weight, PlanOf, JoinLines, Pack;
    var p, n := PlanOf(|units|, Mass(sig, units), budget), |units| - 1;
    MassAbove(sig, units, budget);
    AllPlanned(|units|, Mass(sig, units), budget);
    PackAlone(p, sig, units);
    assert units == units[..n] + [units[n]];
    assert Groups(units, budget, sig) == Singles(units);
    forall k | 0 <= k < |units| ensures JoinEach(Singles(units))[k] == units[k] {
      JoinOne(units[k]);
    }
  }

  lemma AllPlanned(count: nat, total: nat, budget: nat)
    requires count > 0 && budget >= 1 && total > count * budget
    ensures PlanOf(count, total, budget).n == count && PlanOf(count, total, budget).budget == budget
  {
    PlanAims(count, total, budget);
    var p := PlanOf(count, total, budget);
    hide PlanOf;
    if p.n < count {
      MulMono(p.n, count, budget);
    }
  }

  // ---------------------------------------------------------------- when chains stay whole

  lemma WholeFragments(view: string, sliceBudget: int, sig: string -> nat)
    requires ChainsWhole(SplitLines(view), UnitsFrom(SplitLines(view), 0))
    ensures ChainsWhole(SplitLines(view), Fragments(view, sliceBudget, sig))
  {
    hide ChainLink, UnitsFrom, SplitLines, PlanOf, Fits, Groups, Flatten, PartOf;
    var lines := SplitLines(view);
    var units := UnitsFrom(lines, 0);
    SplitLossless(view);
    GlueIdle(view);
    GroupsPack(units, sliceBudget, sig);
    var chunks := Fragments(view, sliceBudget, sig);
    forall i, j | ChainLink(lines, i, j) ensures PartOf(chunks, i) == PartOf(chunks, j) {
      JoinedKeepsTogether(Groups(units, sliceBudget, sig), i, j);
    }
  }

  lemma WholeUnitsIff(view: string)
    ensures var lines := SplitLines(view);
            ChainsWhole(lines, UnitsFrom(lines, 0)) <==> forall i, j :: ChainLink(lines, i, j) ==> !BoundaryBetween(lines, i, j)
  {
    hide UnitsFrom, SplitLines, PartOf, BoundaryBetween, OneLine, Continues;
    var lines := SplitLines(view);
    SplitLinesOneLine(view);
    forall i, j | ChainLink(lines, i, j)
      ensures PartOf(UnitsFrom(lines, 0), i) == PartOf(UnitsFrom(lines, 0), j) <==> !BoundaryBetween(lines, i, j)
    {
      LinkOrdered(lines, i, j);
      SameUnitIff(lines, 0, i, j);
    }
  }

  lemma LinkOrdered(lines: seq<string>, i: nat, j: nat)
    requires ChainLink(lines, i, j)
    ensures i < j < |lines|
  {
  }

  /** Whatever is charged and whatever the budget from `least` up, no continuation is parted from the line that
      opened its chain, exactly when no statement unit ends between the two. */
  lemma ChainsWholeIff(view: string, least: int)
    ensures var lines := SplitLines(view);
            (forall sliceBudget: int, sig: string -> nat :: sliceBudget >= least ==>
               ChainsWhole(lines, Fragments(view, sliceBudget, sig)))
            <==> forall i, j :: ChainLink(lines, i, j) ==> !BoundaryBetween(lines, i, j)
  {
    hide ChainsWhole, ChainLink, BoundaryBetween, UnitsFrom, SplitLines, Fragments, Glue;
    var lines := SplitLines(view);
    WholeUnitsIff(view);
    if ChainsWhole(lines, UnitsFrom(lines, 0)) {
      forall sliceBudget: int, sig: string -> nat | sliceBudget >= least
        ensures ChainsWhole(lines, Fragments(view, sliceBudget, sig))
      {
        WholeFragments(view, sliceBudget, sig);
      }
    } else {
      var budget: nat := if least < 1 then 1 else least;
      AllAlone(view, budget, Flat(budget));
      assert !ChainsWhole(lines, Fragments(view, budget, Flat(budget)));
    }
  }

  lemma AllAlone(view: string, budget: nat, sig: string -> nat)
    requires budget >= 1 && forall u :: u in UnitsFrom(SplitLines(view), 0) ==> Weight(sig, u) > budget
    ensures Fragments(view, budget, sig) == UnitsFrom(SplitLines(view), 0)
  {
    hide UnitsFrom, SplitLines, Glue, Groups, Weight;
    SplitLossless(view);
    GlueIdle(view);
    EachAlone(UnitsFrom(SplitLines(view), 0), budget, sig);
  }

  // ---------------------------------------------------------------- a chain cut inside its first branch

  const IF_OPEN := "if(p){"
  const THEN_A := "a;"
  const THEN_B := "b;"
  const ELSE_LINE := "}else{}"

  lemma SplitIfScans()
    ensures ScanLineFn(FRESH, IF_OPEN) == Scan(1, false, false, false, false, true)
    ensures ScanLineFn(Scan(1, false, false, false, false, true), THEN_A) == Scan(1, false, false, false, false, true)
    ensures ScanLineFn(Scan(1, false, false, false, false, true), THEN_B) == Scan(1, false, false, false, false, true)
  {
  }
  lemma SplitElseScan()
    ensures ScanLineFn(Scan(1, false, false, false, false, true), ELSE_LINE) == Scan(0, false, false, false, false, true)
  {
    assert ScanFrom(Scan(0, false, false, false, false, true), ELSE_LINE, 5) == Scan(0, false, false, false, false, true);
  }

  lemma SplitIfLines()
    ensures !EndsStatement(IF_OPEN) && EndsStatement(THEN_A) && !Continued(THEN_A)
    ensures StripLeadingComments(THEN_B) == THEN_B && !OpensContinuation(THEN_B)
  {
    assert "else"[0] != THEN_B[0] && "}"[0] != THEN_B[0];
  }
  lemma SplitElseLine()
    ensures EndsStatement(ELSE_LINE) && !Continued(ELSE_LINE) && StripLeadingComments(ELSE_LINE) == ELSE_LINE
  {
    TrimOf("", ELSE_LINE, "");
    assert "" + ELSE_LINE + "" == ELSE_LINE;
    assert Trim(ELSE_LINE) == ELSE_LINE;
    hide Trim;
  }

  lemma SplitIfUnits(lines: seq<string>)
    requires lines == [IF_OPEN, THEN_A, THEN_B, ELSE_LINE]
    ensures UnitsFrom(lines, 0) == [JoinLines([IF_OPEN, THEN_A]), JoinLines([THEN_B, ELSE_LINE])]
  {
    hide ScanLineFn, EndsStatement, Continued, StripLeadingComments, JoinLines;
    SplitIfScans();
    SplitElseScan();
    SplitIfLines();
    SplitElseLine();
    ScanOneMore(lines, 0);
    ScanOneMore(lines, 1);
    ScanOneMore(lines, 2);
    ScanOneMore(lines, 3);
    assert lines[..0] == [];
    assert !IsBoundary(lines, 0);
    assert NextCode(lines, 2) == 2;
    assert IsBoundary(lines, 1);
    assert NextCode(lines, 3) == 3;
    assert HasAt(ELSE_LINE, 0, "}");
    assert !IsBoundary(lines, 2);
    assert IsBoundary(lines, 3);
    hide IsBoundary;
    assert NextBoundary(lines, 0) == 1 && NextBoundary(lines, 2) == 3;
    assert lines[0..2] == [IF_OPEN, THEN_A] && lines[2..4] == [THEN_B, ELSE_LINE];
    UnitCloses(lines, 0, 1);
    UnitCloses(lines, 2, 3);
    assert UnitsFrom(lines, 4) == [];
  }

  /** A value that alone fills the least slice budget. */
  function Long(): string {
    seq(2000, _ => 'x')
  }

  /** Two legacy constants, each named in one of the units. */
  function LongConstants(): seq<Item> {
    [ConstantItem("a" + (" = " + Long())), ConstantItem("b" + (" = " + Long()))]
  }

  /** Four characters a token, 929 prompt tokens: the least slice budget that is still chunked. */
  const SMALL := Budget(929, 1000, 4, 0, 0, 0)

  lemma SmallBudget()
    ensures SliceBudget(SMALL, 0, 0) == Some(MIN_FRAGMENT_CHARS)
  {
  }

  lemma ConstantKey(key: string)
    requires |key| == 1 && key[0] != ' '
    ensures ConstantItem(key + (" = " + Long())) == Item(2010, [Needle(key, false)])
  {
    var v := Long();
    var line := key + (" = " + v);
    assert line[1..4] == " = ";
    assert !HasAt(line, 0, " = ") by {
      assert line[0] != ' ';
      assert line[0..3][0] == line[0] && " = "[0] == ' ';
    }
    assert HasAt(line, 1, " = ");
    assert IndexFrom(line, 0, " = ") == IndexFrom(line, 1, " = ") == Some(1);
    assert line[..1] == key;
  }

  lemma MentionsKey(text: string, k: nat, key: string)
    requires |key| == 1 && k < |text| && text[k] == key[0]
    ensures Mentions(text, Item(2010, [Needle(key, false)]))
  {
    assert text[k..k + 1] == key;
    assert OccursAt(text, Needle(key, false), k);
    assert Occurs(text, [Needle(key, false)][0]);
  }

  lemma TwoItems(x: Item, y: Item, text: string)
    requires Mentions(text, x) || Mentions(text, y)
    ensures Extras([x, y], text) >= if Mentions(text, x) then x.cost else y.cost
  {
    hide Mentions;
    assert [x, y][..1] == [x] && [x][..0] == [];
    assert Extras([x], text) == if Mentions(text, x) then x.cost else 0;
  }

  lemma HeavyUnits()
    ensures Weight(Charge(LongConstants()), JoinLines([IF_OPEN, THEN_A])) > 2000
    ensures Weight(Charge(LongConstants()), JoinLines([THEN_B, ELSE_LINE])) > 2000
  {
    var u, v := JoinLines([IF_OPEN, THEN_A]), JoinLines([THEN_B, ELSE_LINE]);
    JoinConcat([IF_OPEN], [THEN_A]);
    JoinConcat([THEN_B], [ELSE_LINE]);
    JoinOne(IF_OPEN);
    JoinOne(THEN_A);
    JoinOne(THEN_B);
    JoinOne(ELSE_LINE);
    assert [IF_OPEN] + [THEN_A] == [IF_OPEN, THEN_A] && [THEN_B] + [ELSE_LINE] == [THEN_B, ELSE_LINE];
    assert u == IF_OPEN + "\n" + THEN_A && v == THEN_B + "\n" + ELSE_LINE;
    hide JoinLines, Long, Extras, Mentions, ConstantItem;
    assert u[|IF_OPEN| + 1] == "a"[0] && v[0] == "b"[0];
    MentionsKey(u, |IF_OPEN| + 1, "a");
    MentionsKey(v, 0, "b");
    ConstantKey("a");
    ConstantKey("b");
    var x, y := ConstantItem("a" + (" = " + Long())), ConstantItem("b" + (" = " + Long()));
    TwoItems(x, y, u);
    TwoItems(x, y, v);
  }

  /** Gluing does not keep a chain whole: with the least budget that is chunked and two long constants, a cut inside
      the body of the if leaves the else in the next fragment, behind a statement, and its opener in the first. */
  lemma ChainStillSplit()
    ensures var lines := [IF_OPEN, THEN_A, THEN_B, ELSE_LINE]; var view := JoinLines(lines);
            var chunks := Fragments(view, MIN_FRAGMENT_CHARS, Charge(LongConstants()));
            && SliceBudget(SMALL, 0, 0) == Some(MIN_FRAGMENT_CHARS)
            && chunks == [JoinLines([IF_OPEN, THEN_A]), JoinLines([THEN_B, ELSE_LINE])]
            && ChainLink(lines, 0, 3) && !ChainsWhole(SplitLines(view), chunks)
  {
    var lines := [IF_OPEN, THEN_A, THEN_B, ELSE_LINE];
    var view, sig := JoinLines(lines), Charge(LongConstants());
    SmallBudget();
    SplitJoinLines(lines);
    SplitIfUnits(lines);
    HeavyUnits();
    SplitLink(lines);
    var parts := [JoinLines([IF_OPEN, THEN_A]), JoinLines([THEN_B, ELSE_LINE])];
    SplitParts(parts);
    hide JoinLines, UnitsFrom, Fragments, ChainLink, PartOf, SliceBudget, Weight, LongConstants, SplitLines;
    AllAlone(view, MIN_FRAGMENT_CHARS, sig);
  }

  lemma SplitLink(lines: seq<string>)
    requires lines == [IF_OPEN, THEN_A, THEN_B, ELSE_LINE]
    ensures ChainLink(lines, 0, 3)
  {
    SplitIfScans();
    SplitElseLine();
    SplitHeads();
    hide ScanLineFn, StripLeadingComments;
    ScanOneMore(lines, 0);
    ScanOneMore(lines, 1);
    ScanOneMore(lines, 2);
    assert lines[..0] == [];
    assert DepthBefore(lines, 0) == 0 && DepthBefore(lines, 1) == DepthBefore(lines, 2) == DepthBefore(lines, 3) == 1;
    assert HasAt(ELSE_LINE, 0, "}");
    assert HasAt(ELSE_LINE, 1, "else");
    assert IndexFrom(ELSE_LINE, 0, "else") == IndexFrom(ELSE_LINE, 1, "else") == Some(1);
    assert Opens(lines, 0, 3) && !Opens(lines, 1, 3) && !Opens(lines, 2, 3);
    assert OpenerBelow(lines, 3, 1) == Some(0);
    assert OpenerBelow(lines, 3, 2) == Some(0);
  }

  lemma SplitHeads()
    ensures StripLeadingComments(IF_OPEN) != ""
  {
    TrimOf("", IF_OPEN, "");
    assert "" + IF_OPEN + "" == IF_OPEN;
    hide Trim;
    assert !HasAt(IF_OPEN, 0, "/*") by { assert IF_OPEN[0..2][0] == 'i' && "/*"[0] == '/'; }
  }

  lemma SplitParts(parts: seq<string>)
    requires parts == [JoinLines([IF_OPEN, THEN_A]), JoinLines([THEN_B, ELSE_LINE])]
    ensures PartOf(parts, 0) == 0 && PartOf(parts, 3) == 1
  {
    SplitJoinLines([IF_OPEN, THEN_A]);
    SplitJoinLines([THEN_B, ELSE_LINE]);
    hide JoinLines, SplitLines;
    assert PartOf(parts[1..], 1) == 0;
  }
}
