/** Pairing the cursors of a batch program with the statements that work on their rows. */
module BatchPairing {
  import opened Options
  import opened Text

  /** A query unit; flattened cursors carry the fetched column names. */
  datatype Query = Query(line: int, flattened: bool, cursorName: string, isDML: bool, binds: seq<string>, rowShape: seq<string>)

  datatype Loop = Loop(startLine: int, endLine: int)

  /** Positions of a cursor and of the statement paired with it. */
  datatype Group = Group(cursor: nat, dml: nat)

  datatype Step = Step(query: nat, inLoop: bool)

  datatype Flow = Flow(groups: seq<Group>, steps: seq<Step>, simple: bool)

  // ---------------------------------------------------------------- names without case

  function Lowers(names: seq<string>): set<string> {
    set i | 0 <= i < |names| :: ToLower(names[i])
  }

  /** Names in order, each spelled as it first occurs, whatever its case. */
  function UniqueNames(names: seq<string>): seq<string> {
    if names == [] then []
    else
      var n := |names| - 1;
      var out := UniqueNames(names[..n]);
      if ToLower(names[n]) in Lowers(names[..n]) then out else out + [names[n]]
  }

  function CountIn(names: seq<string>, lowers: set<string>): nat {
    if names == [] then 0
    else CountIn(names[..|names| - 1], lowers) + if ToLower(names[|names| - 1]) in lowers then 1 else 0
  }

  function Overlap(binds: seq<string>, rowShape: seq<string>): nat {
    CountIn(UniqueNames(binds), Lowers(rowShape))
  }

  lemma LowersNext(names: seq<string>, i: nat)
    requires i < |names|
    ensures Lowers(names[..i + 1]) == Lowers(names[..i]) + {ToLower(names[i])}
  {
    hide ToLower;
    var a, b := names[..i], names[..i + 1];
    forall x ensures x in Lowers(b) <==> x in Lowers(a) || x == ToLower(names[i]) {
      if k :| 0 <= k < |b| && ToLower(b[k]) == x {
        assert k < i ==> a[k] == b[k];
      }
      if k :| 0 <= k < |a| && ToLower(a[k]) == x {
        assert b[k] == a[k];
      }
      assert b[i] == names[i];
    }
  }

  method ListUnique(names: seq<string>) returns (out: seq<string>)
    ensures out == UniqueNames(names)
  {
    out := [];
    var seen: set<string> := {};
    for i := 0 to |names|
      invariant out == UniqueNames(names[..i]) && seen == Lowers(names[..i])
    {
      hide ToLower, Lowers;
      LowersNext(names, i);
      assert names[..i + 1][..i] == names[..i];
      var k := ToLower(names[i]);
      if k !in seen {
        seen := seen + {k};
        out := out + [names[i]];
      }
    }
    assert names[..|names|] == names;
  }

  method CountOverlap(binds: seq<string>, rowShape: seq<string>) returns (n: nat)
    ensures n == Overlap(binds, rowShape)
  {
    var idx: set<string> := {};
    for i := 0 to |rowShape|
      invariant idx == Lowers(rowShape[..i])
    {
      LowersNext(rowShape, i);
      hide ToLower;
      idx := idx + {ToLower(rowShape[i])};
    }
    assert rowShape[..|rowShape|] == rowShape;
    var unique := ListUnique(binds);
    n := 0;
    for i := 0 to |unique|
      invariant n == CountIn(unique[..i], idx)
    {
      hide ToLower;
      assert unique[..i + 1][..i] == unique[..i];
      if ToLower(unique[i]) in idx {
        n := n + 1;
      }
    }
    assert unique[..|unique|] == unique;
  }

  /** Every bind is a fetched column. */
  predicate Covers(rowShape: seq<string>, binds: seq<string>) {
    Lowers(binds) <= Lowers(rowShape)
  }

  lemma {:induction false} UniqueSame(names: seq<string>)
    ensures Lowers(UniqueNames(names)) == Lowers(names)
    ensures names != [] ==> UniqueNames(names) != []
  {
    hide ToLower, Lowers;
    if names == [] {
      assert UniqueNames(names) == names;
    } else {
      var n := |names| - 1;
      UniqueSame(names[..n]);
      LowersNext(names, n);
      assert names[..n + 1] == names;
      var out := UniqueNames(names[..n]) + [names[n]];
      LowersNext(out, |out| - 1);
      assert out[..|out| - 1] == UniqueNames(names[..n]) && out[..|out|] == out;
      FirstIsUnique(names);
    }
  }

  lemma FirstIsUnique(names: seq<string>)
    requires names != []
    ensures UniqueNames(names[..|names| - 1]) == [] && |names| == 1 ==> UniqueNames(names) != []
  {
    assert |names| == 1 ==> names[..0] == [] && Lowers(names[..0]) == {};
  }

  lemma {:induction false} CountAll(names: seq<string>, lowers: set<string>)
    ensures CountIn(names, lowers) <= |names|
    ensures CountIn(names, lowers) == |names| <==> Lowers(names) <= lowers
  {
    hide ToLower, Lowers;
    if names == [] {
      NoLowers();
    } else {
      var n := |names| - 1;
      CountAll(names[..n], lowers);
      LowersNext(names, n);
      assert names[..n + 1] == names;
    }
  }

  lemma NoLowers()
    ensures Lowers([]) == {}
  {
  }

  /** The overlap is complete exactly when every bind is a fetched column. */
  lemma FullOverlapIff(binds: seq<string>, rowShape: seq<string>)
    ensures Overlap(binds, rowShape) == |UniqueNames(binds)| <==> Covers(rowShape, binds)
  {
    hide Lowers;
    CountAll(UniqueNames(binds), Lowers(rowShape));
    UniqueSame(binds);
  }

  // ---------------------------------------------------------------- the nearest covering cursor

  predicate IsCursor(q: Query) {
    q.flattened && q.cursorName != ""
  }

  ghost predicate InRange(cs: seq<nat>, n: nat) {
    forall i :: 0 <= i < |cs| ==> cs[i] < n
  }

  function Cursors(qs: seq<Query>, k: nat): (cs: seq<nat>)
    requires k <= |qs|
    ensures InRange(cs, k)
  {
    if k == 0 then []
    else if IsCursor(qs[k - 1]) then Cursors(qs, k - 1) + [k - 1] else Cursors(qs, k - 1)
  }

  predicate Pairable(q: Query) {
    !q.flattened && q.isDML && q.binds != []
  }

  /** A cursor declared before a statement that fetches all its binds. */
  predicate Serves(qs: seq<Query>, c: nat, q: nat)
    requires c < |qs| && q < |qs|
  {
    qs[c].line < qs[q].line && Overlap(qs[q].binds, qs[c].rowShape) == |UniqueNames(qs[q].binds)|
  }

  /** The last declared of the cursors that serve a statement; the first of those on one line. */
  function Nearest(qs: seq<Query>, cs: seq<nat>, q: nat): (r: Option<nat>)
    requires InRange(cs, |qs|) && q < |qs|
    ensures r.Some? ==> r.value in cs && Serves(qs, r.value, q)
  {
    if cs == [] then None
    else
      var c := cs[|cs| - 1];
      var best := Nearest(qs, cs[..|cs| - 1], q);
      if Serves(qs, c, q) && (best.None? || qs[c].line > qs[best.value].line) then Some(c) else best
  }

  /** The search keeps a cursor that serves, and none that serves is declared after it. */
  lemma {:induction false} NearestIsNearest(qs: seq<Query>, cs: seq<nat>, q: nat)
    requires InRange(cs, |qs|) && q < |qs|
    ensures var r := Nearest(qs, cs, q);
            && (r.None? <==> forall i :: 0 <= i < |cs| ==> !Serves(qs, cs[i], q))
            && (r.Some? ==> forall i :: 0 <= i < |cs| && Serves(qs, cs[i], q) ==> qs[cs[i]].line <= qs[r.value].line)
  {
    hide Serves;
    if cs != [] {
      NearestIsNearest(qs, cs[..|cs| - 1], q);
    }
  }

  method FindNearest(qs: seq<Query>, cs: seq<nat>, q: nat) returns (best: Option<nat>)
    requires InRange(cs, |qs|) && q < |qs| && qs[q].binds != []
    ensures best == Nearest(qs, cs, q)
  {
    best := None;
    var bestScore := 0;
    var unique := ListUnique(qs[q].binds);
    UniqueSame(qs[q].binds);
    for i := 0 to |cs|
      invariant best == Nearest(qs, cs[..i], q) && bestScore == if best.None? then 0 else |unique|
    {
      hide UniqueNames, Overlap, Lowers;
      assert cs[..i + 1][..i] == cs[..i];
      var c := cs[i];
      if qs[c].line >= qs[q].line {
        continue;
      }
      var score := CountOverlap(qs[q].binds, qs[c].rowShape);
      if score != |unique| {
        continue;
      }
      if score > bestScore || (score == bestScore && best.Some? && qs[c].line > qs[best.value].line) {
        best, bestScore := Some(c), score;
      }
    }
    assert cs[..|cs|] == cs;
  }

  // ---------------------------------------------------------------- claims

  /** Cursor to paired statement, after the first `k` queries: the first statement a cursor serves best claims it. */
  function Claims(qs: seq<Query>, cs: seq<nat>, k: nat): map<nat, nat>
    requires InRange(cs, |qs|) && k <= |qs|
  {
    if k == 0 then map[]
    else
      var m := Claims(qs, cs, k - 1);
      if !Pairable(qs[k - 1]) then m
      else
        match Nearest(qs, cs, k - 1)
        case None => m
        case Some(c) => if c in m then m else m[c := k - 1]
  }

  /** Every pair is a named cursor with a statement it serves, nearest of all cursors, and no statement is
      claimed twice. */
  lemma {:induction false} ClaimsPair(qs: seq<Query>, cs: seq<nat>, k: nat)
    requires InRange(cs, |qs|) && k <= |qs|
    ensures var m := Claims(qs, cs, k);
            && (forall c :: c in m ==> c in cs && m[c] < k && Pairable(qs[m[c]]) && Nearest(qs, cs, m[c]) == Some(c))
            && (forall c, d :: c in m && d in m && m[c] == m[d] ==> c == d)
  {
    hide Pairable;
    if k > 0 {
      ClaimsPair(qs, cs, k - 1);
      hide Nearest;
    }
  }

  /** A pairable statement with a serving cursor is claimed, or its nearest cursor was claimed by an earlier one. */
  lemma {:induction false} ClaimsFirst(qs: seq<Query>, cs: seq<nat>, k: nat, q: nat)
    requires InRange(cs, |qs|) && q < k <= |qs| && Pairable(qs[q]) && Nearest(qs, cs, q).Some?
    ensures var m, c := Claims(qs, cs, k), Nearest(qs, cs, q).value; c in m && m[c] <= q
    decreases k
  {
    hide Pairable, Nearest;
    if q < k - 1 {
      ClaimsFirst(qs, cs, k - 1, q);
    } else {
      ClaimsPair(qs, cs, k - 1);
    }
  }

  // ---------------------------------------------------------------- the flow

  predicate InLoop(loops: seq<Loop>, line: int) {
    exists i :: 0 <= i < |loops| && loops[i].startLine <= line <= loops[i].endLine
  }

  method ScanLoops(loops: seq<Loop>, line: int) returns (r: bool)
    ensures r == InLoop(loops, line)
  {
    for i := 0 to |loops|
      invariant forall j :: 0 <= j < i ==> !(loops[j].startLine <= line <= loops[j].endLine)
    {
      if line >= loops[i].startLine && line <= loops[i].endLine {
        return true;
      }
    }
    return false;
  }

  function GroupsOf(cs: seq<nat>, claims: map<nat, nat>): seq<Group> {
    if cs == [] then []
    else
      var c := cs[|cs| - 1];
      var groups := GroupsOf(cs[..|cs| - 1], claims);
      if c in claims then groups + [Group(c, claims[c])] else groups
  }

  function LeftCursors(cs: seq<nat>, claims: map<nat, nat>): seq<nat> {
    if cs == [] then []
    else
      var c := cs[|cs| - 1];
      var left := LeftCursors(cs[..|cs| - 1], claims);
      if c in claims then left else left + [c]
  }

  predicate Paired(claims: map<nat, nat>, q: nat) {
    exists c :: c in claims && claims[c] == q
  }

  function LeftOthers(qs: seq<Query>, claims: map<nat, nat>, k: nat): seq<nat>
    requires k <= |qs|
  {
    if k == 0 then []
    else if qs[k - 1].flattened || Paired(claims, k - 1) then LeftOthers(qs, claims, k - 1)
    else LeftOthers(qs, claims, k - 1) + [k - 1]
  }

  function StepOf(qs: seq<Query>, loops: seq<Loop>, q: nat): Step {
    Step(q, q < |qs| && InLoop(loops, qs[q].line))
  }

  function StepsOf(qs: seq<Query>, loops: seq<Loop>, ids: seq<nat>): seq<Step> {
    seq(|ids|, k requires 0 <= k < |ids| => StepOf(qs, loops, ids[k]))
  }

  /** The flow of the queries of an entry body. */
  function FlowOf(qs: seq<Query>, loops: seq<Loop>): Flow {
    var cs := Cursors(qs, |qs|);
    var claims := Claims(qs, cs, |qs|);
    var groups := GroupsOf(cs, claims);
    var steps := StepsOf(qs, loops, LeftCursors(cs, claims)) + StepsOf(qs, loops, LeftOthers(qs, claims, |qs|));
    Flow(groups, steps, steps == [] && groups != [])
  }

  method ListCursors(qs: seq<Query>) returns (cs: seq<nat>)
    ensures cs == Cursors(qs, |qs|)
  {
    cs := [];
    for k := 0 to |qs|
      invariant cs == Cursors(qs, k)
    {
      if qs[k].flattened && qs[k].cursorName != "" {
        cs := cs + [k];
      }
    }
  }

  method ClaimAll(qs: seq<Query>, cs: seq<nat>) returns (claimed: map<nat, nat>)
    requires InRange(cs, |qs|)
    ensures claimed == Claims(qs, cs, |qs|)
  {
    claimed := map[];
    for k := 0 to |qs|
      invariant claimed == Claims(qs, cs, k)
    {
      hide Nearest, InRange;
      if qs[k].flattened || !qs[k].isDML || |qs[k].binds| == 0 {
        continue;
      }
      var best := FindNearest(qs, cs, k);
      if best.Some? && best.value !in claimed {
        claimed := claimed[best.value := k];
      }
    }
  }

  method Build(qs: seq<Query>, loops: seq<Loop>) returns (flow: Flow)
    ensures flow == FlowOf(qs, loops)
  {
    var cs := ListCursors(qs);
    var claimed := ClaimAll(qs, cs);
    var groups: seq<Group> := [];
    var steps: seq<Step> := [];
    hide Claims, InRange, InLoop;
    for i := 0 to |cs|
      invariant groups == GroupsOf(cs[..i], claimed)
      invariant steps == StepsOf(qs, loops, LeftCursors(cs[..i], claimed))
    {
      assert cs[..i + 1][..i] == cs[..i];
      var c := cs[i];
      if c in claimed {
        groups := groups + [Group(c, claimed[c])];
      } else {
        var inLoop := ScanLoops(loops, qs[c].line);
        StepsNext(qs, loops, LeftCursors(cs[..i], claimed), c);
        steps := steps + [Step(c, inLoop)];
      }
    }
    assert cs[..|cs|] == cs;
    var others := BuildOthers(qs, loops, claimed);
    steps := steps + others;
    flow := Flow(groups, steps, |steps| == 0 && |groups| > 0);
  }

  /** The steps of the queries that are neither cursors nor paired. */
  method BuildOthers(qs: seq<Query>, loops: seq<Loop>, claimed: map<nat, nat>) returns (steps: seq<Step>)
    ensures steps == StepsOf(qs, loops, LeftOthers(qs, claimed, |qs|))
  {
    steps := [];
    for k := 0 to |qs|
      invariant steps == StepsOf(qs, loops, LeftOthers(qs, claimed, k))
    {
      hide InLoop;
      var paired := IsPaired(claimed, k);
      if qs[k].flattened || paired {
        continue;
      }
      var inLoop := ScanLoops(loops, qs[k].line);
      StepsNext(qs, loops, LeftOthers(qs, claimed, k), k);
      steps := steps + [Step(k, inLoop)];
    }
  }

  lemma StepsNext(qs: seq<Query>, loops: seq<Loop>, ids: seq<nat>, q: nat)
    ensures StepsOf(qs, loops, ids + [q]) == StepsOf(qs, loops, ids) + [StepOf(qs, loops, q)]
  {
    hide StepOf;
  }

  method IsPaired(claimed: map<nat, nat>, q: nat) returns (r: bool)
    ensures r == Paired(claimed, q)
  {
    var left := claimed.Keys;
    while left != {}
      invariant left <= claimed.Keys && forall c :: c in claimed && c !in left ==> claimed[c] != q
      decreases left
    {
      var c :| c in left;
      if claimed[c] == q {
        return true;
      }
      left := left - {c};
    }
    return false;
  }

  // ---------------------------------------------------------------- the partition

  function CursorsOf(groups: seq<Group>): seq<nat> {
    seq(|groups|, k requires 0 <= k < |groups| => groups[k].cursor)
  }

  function DmlsOf(groups: seq<Group>): seq<nat> {
    seq(|groups|, k requires 0 <= k < |groups| => groups[k].dml)
  }

  function QueriesOf(steps: seq<Step>): seq<nat> {
    seq(|steps|, k requires 0 <= k < |steps| => steps[k].query)
  }

  /** Where every query of the flow went, one entry a place. */
  function Placed(flow: Flow): multiset<nat> {
    multiset(CursorsOf(flow.groups)) + multiset(DmlsOf(flow.groups)) + multiset(QueriesOf(flow.steps))
  }

  lemma {:induction false} CursorsSplit(cs: seq<nat>, claims: map<nat, nat>)
    ensures multiset(CursorsOf(GroupsOf(cs, claims))) + multiset(LeftCursors(cs, claims)) == multiset(cs)
  {
    if cs == [] {
      assert CursorsOf([]) == [];
    } else {
      var n := |cs| - 1;
      CursorsSplit(cs[..n], claims);
      assert cs == cs[..n] + [cs[n]];
      if cs[n] in claims {
        GroupsNext(GroupsOf(cs[..n], claims), cs[n], claims[cs[n]]);
      }
    }
  }

  lemma GroupsNext(groups: seq<Group>, c: nat, q: nat)
    ensures CursorsOf(groups + [Group(c, q)]) == CursorsOf(groups) + [c]
    ensures DmlsOf(groups + [Group(c, q)]) == DmlsOf(groups) + [q]
  {
  }

  predicate NoDup(cs: seq<nat>) {
    forall i, j :: 0 <= i < j < |cs| ==> cs[i] != cs[j]
  }

  ghost predicate Injective(claims: map<nat, nat>) {
    forall c, d :: c in claims && d in claims && claims[c] == claims[d] ==> c == d
  }

  lemma ClaimsInjective(qs: seq<Query>, cs: seq<nat>, k: nat)
    requires InRange(cs, |qs|) && k <= |qs|
    ensures Injective(Claims(qs, cs, k))
  {
    hide Claims;
    ClaimsPair(qs, cs, k);
  }

  /** A statement is among the groups' statements once if its cursor is listed, and else not at all. */
  lemma {:induction false} DmlCount(cs: seq<nat>, claims: map<nat, nat>, q: nat)
    requires NoDup(cs) && Injective(claims)
    ensures multiset(DmlsOf(GroupsOf(cs, claims)))[q] == if exists c :: c in cs && c in claims && claims[c] == q then 1 else 0
  {
    if cs == [] {
      assert DmlsOf([]) == [];
    } else {
      var n := |cs| - 1;
      DmlCount(cs[..n], claims, q);
      assert forall c :: c in cs <==> c in cs[..n] || c == cs[n];
      assert cs[n] !in cs[..n];
      if cs[n] in claims {
        GroupsNext(GroupsOf(cs[..n], claims), cs[n], claims[cs[n]]);
      }
    }
  }

  lemma {:induction false} OthersCount(qs: seq<Query>, claims: map<nat, nat>, k: nat, q: nat)
    requires k <= |qs|
    ensures multiset(LeftOthers(qs, claims, k))[q] == if q < k && !qs[q].flattened && !Paired(claims, q) then 1 else 0
    decreases k
  {
    hide Paired;
    if k > 0 {
      OthersCount(qs, claims, k - 1, q);
    }
  }

  lemma {:induction false} CursorsCount(qs: seq<Query>, k: nat, q: nat)
    requires k <= |qs|
    ensures multiset(Cursors(qs, k))[q] == if q < k && IsCursor(qs[q]) then 1 else 0
    decreases k
  {
    if k > 0 {
      CursorsCount(qs, k - 1, q);
    }
  }

  lemma {:induction false} CursorsDistinct(qs: seq<Query>, k: nat)
    requires k <= |qs|
    ensures NoDup(Cursors(qs, k)) && forall c: nat :: c in Cursors(qs, k) <==> c < k && IsCursor(qs[c])
    decreases k
  {
    if k > 0 {
      CursorsDistinct(qs, k - 1);
    }
  }

  lemma StepQueries(qs: seq<Query>, loops: seq<Loop>, a: seq<nat>, b: seq<nat>)
    ensures QueriesOf(StepsOf(qs, loops, a) + StepsOf(qs, loops, b)) == a + b
  {
    hide InLoop;
  }

  /** Every query is placed exactly once, as a group's cursor, a group's statement or a step, except the
      flattened queries without a cursor name, which are placed nowhere. */
  lemma PlacedOnce(qs: seq<Query>, loops: seq<Loop>, q: nat)
    ensures Placed(FlowOf(qs, loops))[q] == if q < |qs| && (qs[q].flattened ==> qs[q].cursorName != "") then 1 else 0
  {
    hide Claims, Cursors, GroupsOf, LeftCursors, LeftOthers, Nearest, StepsOf, CursorsOf, DmlsOf, QueriesOf, Injective;
    var cs := Cursors(qs, |qs|);
    var claims := Claims(qs, cs, |qs|);
    var groups := GroupsOf(cs, claims);
    StepQueries(qs, loops, LeftCursors(cs, claims), LeftOthers(qs, claims, |qs|));
    ClaimsPair(qs, cs, |qs|);
    CursorsDistinct(qs, |qs|);
    CursorsSplit(cs, claims);
    ClaimsInjective(qs, cs, |qs|);
    DmlCount(cs, claims, q);
    OthersCount(qs, claims, |qs|, q);
    CursorsCount(qs, |qs|, q);
    assert Paired(claims, q) <==> exists c :: c in cs && c in claims && claims[c] == q;
  }

  /** Every query is placed exactly when every flattened one carries a cursor name. */
  lemma AllPlacedIff(qs: seq<Query>, loops: seq<Loop>)
    ensures (forall q: nat :: q < |qs| ==> Placed(FlowOf(qs, loops))[q] == 1) <==>
            (forall q: nat :: q < |qs| && qs[q].flattened ==> qs[q].cursorName != "")
  {
    hide FlowOf, Placed;
    forall q: nat | q < |qs|
      ensures Placed(FlowOf(qs, loops))[q] == 1 <==> (qs[q].flattened ==> qs[q].cursorName != "")
    {
      PlacedOnce(qs, loops, q);
    }
  }

  function Upto(n: nat): seq<nat> {
    seq(n, i requires 0 <= i < n => i)
  }

  lemma {:induction false} UptoCount(n: nat, q: nat)
    ensures multiset(Upto(n))[q] == if q < n then 1 else 0
  {
    if n > 0 {
      UptoCount(n - 1, q);
      assert Upto(n) == Upto(n - 1) + [n - 1];
    } else {
      assert Upto(0) == [];
    }
  }

  /** In the simple shape, and only there, the queries are the two of every group and nothing else. */
  lemma SimpleIff(qs: seq<Query>, loops: seq<Loop>)
    requires forall q: nat :: q < |qs| && qs[q].flattened ==> qs[q].cursorName != ""
    ensures var flow := FlowOf(qs, loops);
            && |qs| == 2 * |flow.groups| + |flow.steps|
            && (flow.simple <==> qs != [] && |qs| == 2 * |flow.groups|)
  {
    var flow := FlowOf(qs, loops);
    var placed := Placed(flow);
    assert |placed| == 2 * |flow.groups| + |flow.steps|;
    hide FlowOf, Placed;
    forall q: nat ensures placed[q] == multiset(Upto(|qs|))[q] {
      PlacedOnce(qs, loops, q);
      UptoCount(|qs|, q);
    }
    assert placed == multiset(Upto(|qs|));
    assert |multiset(Upto(|qs|))| == |qs|;
  }

  lemma {:induction false} GroupsFromClaims(cs: seq<nat>, claims: map<nat, nat>, g: nat)
    requires g < |GroupsOf(cs, claims)|
    ensures var p := GroupsOf(cs, claims)[g]; p.cursor in cs && p.cursor in claims && claims[p.cursor] == p.dml
  {
    var n := |cs| - 1;
    if g < |GroupsOf(cs[..n], claims)| {
      GroupsFromClaims(cs[..n], claims, g);
    }
  }

  /** The binds of a paired statement are all columns its cursor fetches; the cursor is declared before the
      statement, and no other cursor that could serve it is declared after that one. */
  lemma PairedByNearest(qs: seq<Query>, loops: seq<Loop>, g: nat, other: nat)
    requires g < |FlowOf(qs, loops).groups|
    requires other < |qs| && IsCursor(qs[other])
    ensures var p := FlowOf(qs, loops).groups[g];
            && p.cursor < |qs| && p.dml < |qs| && IsCursor(qs[p.cursor]) && Pairable(qs[p.dml])
            && qs[p.cursor].line < qs[p.dml].line && Covers(qs[p.cursor].rowShape, qs[p.dml].binds)
            && (qs[other].line < qs[p.dml].line && Covers(qs[other].rowShape, qs[p.dml].binds) ==>
                qs[other].line <= qs[p.cursor].line)
  {
    var cs := Cursors(qs, |qs|);
    var claims := Claims(qs, cs, |qs|);
    var p := FlowOf(qs, loops).groups[g];
    GroupsFromClaims(cs, claims, g);
    ClaimsPair(qs, cs, |qs|);
    CursorsDistinct(qs, |qs|);
    NearestIsNearest(qs, cs, p.dml);
    FullOverlapIff(qs[p.dml].binds, qs[p.cursor].rowShape);
    FullOverlapIff(qs[p.dml].binds, qs[other].rowShape);
    hide Claims, Cursors, GroupsOf, Nearest, Covers, Overlap, UniqueNames;
    assert other in cs;
    var i: nat :| i < |cs| && cs[i] == other;
    assert Serves(qs, p.cursor, p.dml);
  }

  /** A statement left as a step although some cursor could serve it found its nearest cursor already taken by
      an earlier statement. */
  lemma LeftBehind(qs: seq<Query>, q: nat, c: nat)
    requires q < |qs| && Pairable(qs[q]) && c < |qs| && IsCursor(qs[c])
    requires qs[c].line < qs[q].line && Covers(qs[c].rowShape, qs[q].binds)
    ensures var claims := Claims(qs, Cursors(qs, |qs|), |qs|); var best := Nearest(qs, Cursors(qs, |qs|), q);
            best.Some? && best.value in claims && claims[best.value] <= q
  {
    var cs := Cursors(qs, |qs|);
    CursorsDistinct(qs, |qs|);
    NearestIsNearest(qs, cs, q);
    FullOverlapIff(qs[q].binds, qs[c].rowShape);
    hide Cursors, Covers, Overlap, UniqueNames, Nearest;
    assert c in cs;
    var i: nat :| i < |cs| && cs[i] == c;
    assert Serves(qs, c, q);
    ClaimsFirst(qs, cs, |qs|, q);
  }
}
