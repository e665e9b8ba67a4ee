/** Rewriting a legacy source: every query's line range becomes its one resolved call line. */
module QueryReplace {
  import opened Text
  import opened Sorting
  import opened StoreCall

  datatype Query = Query(id: string, qtype: string, startLine: int, endLine: int)

  datatype QueryReport = QueryReport(id: string, qtype: string, startLine: int, endLine: int, viewLine: int,
                                     linesBefore: int, charsBefore: nat, charsAfter: nat)

  datatype View = View(source: string, report: seq<QueryReport>, charsBefore: nat, charsAfter: nat)

  datatype Fault =
    | OutsideSource(q: Query)
    | Overlap(q: Query, before: Query)
    | NoCall(q: Query)
    | EmptyName(q: Query)
    | EmptyContext(q: Query)

  datatype Result = Ok(view: View) | Err(fault: Fault)

  type Calls = map<string, DBCall>

  // ---------------------------------------------------------------- which queries can be replaced

  predicate InSource(q: Query, n: nat) {
    1 <= q.startLine <= q.endLine <= n
  }

  predicate Resolved(q: Query, calls: Calls) {
    q.id in calls && calls[q.id].name != "" && calls[q.id].ctxName != ""
  }

  predicate Replaceable(q: Query, n: nat, calls: Calls) {
    InSource(q, n) && Resolved(q, calls)
  }

  /** Every query lies in the source and resolves, and starts after the one before it ends. */
  predicate Stacked(ranges: seq<Query>, n: nat, calls: Calls) {
    && (forall i :: 0 <= i < |ranges| ==> Replaceable(ranges[i], n, calls))
    && (forall i :: 0 < i < |ranges| ==> ranges[i - 1].endLine < ranges[i].startLine)
  }

  /** What is wrong with the i-th query, checked in the source's order. */
  function FaultAt(ranges: seq<Query>, i: nat, n: nat, calls: Calls): Fault
    requires i < |ranges|
  {
    var q := ranges[i];
    if !InSource(q, n) then OutsideSource(q)
    else if i > 0 && ranges[i - 1].endLine >= q.startLine then Overlap(q, ranges[i - 1])
    else if q.id !in calls then NoCall(q)
    else if calls[q.id].name == "" then EmptyName(q)
    else EmptyContext(q)
  }

  predicate Clean(ranges: seq<Query>, i: nat, n: nat, calls: Calls)
    requires i < |ranges|
  {
    Replaceable(ranges[i], n, calls) && (i > 0 ==> ranges[i - 1].endLine < ranges[i].startLine)
  }

  // ---------------------------------------------------------------- the splice

  function CallLine(lines: seq<string>, q: Query, calls: Calls): string
    requires Replaceable(q, |lines|, calls)
  {
    Leading(lines[q.startLine - 1]) + CallText(calls[q.id])
  }

  function Region(lines: seq<string>, q: Query): string
    requires InSource(q, |lines|)
  {
    JoinLines(lines[q.startLine - 1..q.endLine])
  }

  /** Lines written, next line to copy, reports and totals. */
  datatype Splice = Splice(out: seq<string>, pos: nat, report: seq<QueryReport>, before: nat, after: nat)

  function SpliceUpTo(lines: seq<string>, ranges: seq<Query>, calls: Calls): (s: Splice)
    requires Stacked(ranges, |lines|, calls)
    ensures s.pos == if ranges == [] then 0 else ranges[|ranges| - 1].endLine
    ensures s.pos <= |lines|
  {
    if ranges == [] then Splice([], 0, [], 0, 0)
    else
      var n := |ranges| - 1;
      SpliceOne(lines, SpliceUpTo(lines, ranges[..n], calls), ranges[n], calls)
  }

  function SpliceOne(lines: seq<string>, s: Splice, q: Query, calls: Calls): (r: Splice)
    requires Replaceable(q, |lines|, calls) && s.pos < q.startLine
    ensures r.pos == q.endLine
  {
    var call := CallLine(lines, q, calls);
    var out := s.out + lines[s.pos..q.startLine - 1] + [call];
    var region := Region(lines, q);
    Splice(out, q.endLine,
           s.report + [QueryReport(q.id, q.qtype, q.startLine, q.endLine, |out|, q.endLine - q.startLine + 1,
                                   |region|, |call|)],
           s.before + |region|, s.after + |call|)
  }

  /** The rewritten lines. */
  function ViewLines(lines: seq<string>, ranges: seq<Query>, calls: Calls): seq<string>
    requires Stacked(ranges, |lines|, calls)
  {
    var s := SpliceUpTo(lines, ranges, calls);
    s.out + lines[s.pos..]
  }

  function Rewritten(src: string, ranges: seq<Query>, calls: Calls): View
    requires Stacked(ranges, |SplitLines(src)|, calls)
  {
    var s := SpliceUpTo(SplitLines(src), ranges, calls);
    View(JoinLines(ViewLines(SplitLines(src), ranges, calls)), s.report, s.before, s.after)
  }

  predicate Earlier(a: Query, b: Query) {
    a.startLine < b.startLine
  }

  /** The queries in the order `sort.Slice` leaves them. */
  ghost predicate SortedAs(queries: seq<Query>, ranges: seq<Query>) {
    multiset(ranges) == multiset(queries) && Ordered(ranges, Earlier)
  }

  /** The fault of the first query that has one. */
  ghost predicate FirstFault(ranges: seq<Query>, n: nat, calls: Calls, fault: Fault) {
    exists i: nat :: i < |ranges| && !Clean(ranges, i, n, calls) && fault == FaultAt(ranges, i, n, calls)
      && forall j: nat :: j < i ==> Clean(ranges, j, n, calls)
  }

  /** The outcome for one sorted order: the rewritten view, or the fault of the first query that has one. */
  ghost predicate Outcome(src: string, ranges: seq<Query>, calls: Calls, r: Result) {
    var n := |SplitLines(src)|;
    match r
    case Ok(view) => Stacked(ranges, n, calls) && view == Rewritten(src, ranges, calls)
    case Err(fault) => FirstFault(ranges, n, calls, fault)
  }

  method CheckRanges(ranges: seq<Query>, n: nat, calls: Calls) returns (ok: bool, fault: Fault)
    ensures ok <==> Stacked(ranges, n, calls)
    ensures !ok ==> FirstFault(ranges, n, calls, fault)
  {
    for i := 0 to |ranges|
      invariant forall j: nat :: j < i ==> Clean(ranges, j, n, calls)
    {
      var q := ranges[i];
      fault := FaultAt(ranges, i, n, calls);
      assert Clean(ranges, i, n, calls) || fault == FaultAt(ranges, i, n, calls);
      if q.startLine < 1 || q.endLine < q.startLine || q.endLine > n {
        return false, OutsideSource(q);
      }
      if i > 0 && ranges[i - 1].endLine >= q.startLine {
        return false, Overlap(q, ranges[i - 1]);
      }
      if q.id !in calls {
        return false, NoCall(q);
      }
      if calls[q.id].name == "" {
        return false, EmptyName(q);
      }
      if calls[q.id].ctxName == "" {
        return false, EmptyContext(q);
      }
    }
    ok := true;
    fault := NoCall(Query("", "", 0, 0));
    assert Stacked(ranges, n, calls) by {
      forall i | 0 <= i < |ranges| ensures Replaceable(ranges[i], n, calls) {
        assert Clean(ranges, i, n, calls);
      }
      forall i | 0 < i < |ranges| ensures ranges[i - 1].endLine < ranges[i].startLine {
        assert Clean(ranges, i, n, calls);
      }
    }
  }

  lemma StackedPrefix(ranges: seq<Query>, k: nat, n: nat, calls: Calls)
    requires Stacked(ranges, n, calls) && k <= |ranges|
    ensures Stacked(ranges[..k], n, calls)
  {
  }

  ghost predicate SplicedSoFar(lines: seq<string>, ranges: seq<Query>, k: nat, calls: Calls, s: Splice) {
    && k <= |ranges| && Stacked(ranges[..k], |lines|, calls) && s == SpliceUpTo(lines, ranges[..k], calls)
    && s.pos <= |lines|
  }

  lemma SpliceNext(lines: seq<string>, ranges: seq<Query>, k: nat, calls: Calls, s: Splice)
    requires Stacked(ranges, |lines|, calls) && k < |ranges| && SplicedSoFar(lines, ranges, k, calls, s)
    ensures var q := ranges[k];
            && Replaceable(q, |lines|, calls) && s.pos < q.startLine <= q.endLine <= |lines|
            && SplicedSoFar(lines, ranges, k + 1, calls, SpliceOne(lines, s, q, calls))
  {
    StackedPrefix(ranges, k, |lines|, calls);
    StackedPrefix(ranges, k + 1, |lines|, calls);
    assert ranges[..k + 1][..k] == ranges[..k];
  }

  /** One turn of the splice loop, component by component. */
  lemma SpliceOneIs(lines: seq<string>, s: Splice, q: Query, calls: Calls)
    requires Replaceable(q, |lines|, calls) && s.pos < q.startLine <= q.endLine <= |lines|
    ensures var (r, call, region) := (SpliceOne(lines, s, q, calls), CallLine(lines, q, calls), Region(lines, q));
            && r.out == s.out + lines[s.pos..q.startLine - 1] + [call] && r.pos == q.endLine
            && r.report == s.report + [QueryReport(q.id, q.qtype, q.startLine, q.endLine, |r.out|,
                                                   q.endLine - q.startLine + 1, |region|, |call|)]
            && r.before == s.before + |region| && r.after == s.after + |call|
  {
  }

  /** The call line at the depth of the replaced first line, and the text it replaces. */
  method RenderRange(lines: seq<string>, q: Query, calls: Calls) returns (callLine: string, region: string)
    requires Replaceable(q, |lines|, calls)
    ensures callLine == CallLine(lines, q, calls) && region == Region(lines, q)
  {
    var text := RenderCall(calls[q.id]);
    callLine := Leading(lines[q.startLine - 1]) + text;
    region := JoinLines(lines[q.startLine - 1..q.endLine]);
  }

  method SpliceRanges(lines: seq<string>, ranges: seq<Query>, calls: Calls) returns (view: View)
    requires Stacked(ranges, |lines|, calls)
    ensures var s := SpliceUpTo(lines, ranges, calls);
            view == View(JoinLines(ViewLines(lines, ranges, calls)), s.report, s.before, s.after)
  {
    var out: seq<string> := [];
    var pos: nat := 0;
    var report: seq<QueryReport> := [];
    var before: nat, after: nat := 0, 0;
    ghost var s := Splice([], 0, [], 0, 0);
    assert SplicedSoFar(lines, ranges, 0, calls, s);
    hide Stacked, SplicedSoFar, SpliceUpTo, JoinLines;
    for k := 0 to |ranges|
      invariant SplicedSoFar(lines, ranges, k, calls, s)
      invariant out == s.out && pos == s.pos && report == s.report && before == s.before && after == s.after
    {
      SpliceNext(lines, ranges, k, calls, s);
      hide *;
      var q := ranges[k];
      var start, end := q.startLine - 1, q.endLine;
      var callLine, region := RenderRange(lines, q, calls);
      out := out + lines[pos..start] + [callLine];
      pos := end;
      report := report + [QueryReport(q.id, q.qtype, q.startLine, q.endLine, |out|, q.endLine - q.startLine + 1,
                                      |region|, |callLine|)];
      before := before + |region|;
      after := after + |callLine|;
      SpliceOneIs(lines, s, q, calls);
      s := SpliceOne(lines, s, q, calls);
    }
    AllSpliced(lines, ranges, calls, s);
    hide *;
    out := out + lines[pos..];
    return View(JoinLines(out), report, before, after);
  }

  lemma AllSpliced(lines: seq<string>, ranges: seq<Query>, calls: Calls, s: Splice)
    requires Stacked(ranges, |lines|, calls) && SplicedSoFar(lines, ranges, |ranges|, calls, s)
    ensures s == SpliceUpTo(lines, ranges, calls) && ViewLines(lines, ranges, calls) == s.out + lines[s.pos..]
  {
    assert ranges[..|ranges|] == ranges;
  }

  // ---------------------------------------------------------------- the order of the queries does not matter

  /** Ranges ordered by start line and clear of each other end before every later one starts. */
  lemma {:induction false} StackedOrder(ranges: seq<Query>, n: nat, calls: Calls, i: nat, j: nat)
    requires Stacked(ranges, n, calls) && i < j < |ranges|
    ensures ranges[i].endLine < ranges[j].startLine && ranges[i].startLine < ranges[j].startLine
    decreases j
  {
    assert ranges[j - 1].endLine < ranges[j].startLine;
    assert Replaceable(ranges[j - 1], n, calls) && Replaceable(ranges[i], n, calls);
    if i < j - 1 {
      StackedOrder(ranges, n, calls, i, j - 1);
    }
  }

  lemma {:induction false} OrderedStarts(ranges: seq<Query>, i: nat, j: nat)
    requires Ordered(ranges, Earlier) && i <= j < |ranges|
    ensures ranges[i].startLine <= ranges[j].startLine
    decreases j
  {
    if i < j {
      OrderedStarts(ranges, i, j - 1);
      assert !Earlier(ranges[j], ranges[j - 1]);
    }
  }

  lemma StackedTail(ranges: seq<Query>, n: nat, calls: Calls)
    requires Stacked(ranges, n, calls) && ranges != []
    ensures Stacked(ranges[1..], n, calls)
  {
    forall i | 0 < i < |ranges[1..]| ensures ranges[1..][i - 1].endLine < ranges[1..][i].startLine {
      assert ranges[(i + 1) - 1].endLine < ranges[i + 1].startLine;
    }
  }

  /** A clean order has the same first query as any other order of the same queries. */
  lemma SameFirst(a: seq<Query>, b: seq<Query>, n: nat, calls: Calls)
    requires Stacked(a, n, calls) && Ordered(b, Earlier) && multiset(a) == multiset(b) && a != [] && b != []
    ensures a[0] == b[0]
  {
    PermutedMembers(a, b);
    assert a[0] in b && b[0] in a;
    var i: nat :| i < |a| && a[i] == b[0];
    var j: nat :| j < |b| && b[j] == a[0];
    OrderedStarts(b, 0, j);
    if i > 0 {
      StackedOrder(a, n, calls, 0, i);
    }
  }

  lemma {:induction false} SameOrder(a: seq<Query>, b: seq<Query>, n: nat, calls: Calls)
    requires Stacked(a, n, calls) && Ordered(b, Earlier) && multiset(a) == multiset(b)
    ensures a == b
  {
    PermutedMembers(a, b);
    if a != [] {
      SameFirst(a, b, n, calls);
      MultisetTail(a);
      MultisetTail(b);
      StackedTail(a, n, calls);
      SameOrder(a[1..], b[1..], n, calls);
      assert a == [a[0]] + a[1..] && b == [b[0]] + b[1..];
    }
  }

  /** When it succeeds, the replacement does not depend on the order of the queries. */
  lemma OrderIndependent(src: string, queries: seq<Query>, other: seq<Query>, calls: Calls,
                         ranges: seq<Query>, ranges': seq<Query>, r: Result, r': Result)
    requires multiset(queries) == multiset(other)
    requires SortedAs(queries, ranges) && Outcome(src, ranges, calls, r)
    requires SortedAs(other, ranges') && Outcome(src, ranges', calls, r')
    ensures r.Ok? ==> r' == r
    ensures r.Ok? <==> r'.Ok?
  {
    hide Rewritten;
    var n := |SplitLines(src)|;
    if r.Ok? {
      SameOrder(ranges, ranges', n, calls);
    }
    if r'.Ok? {
      SameOrder(ranges', ranges, n, calls);
    }
  }

  predicate Apart(q: Query, r: Query) {
    q.endLine < r.startLine || r.endLine < q.startLine
  }

  /** Every query lies in the source and resolves, none is given twice, and no two overlap. */
  ghost predicate Disjoint(bag: multiset<Query>, n: nat, calls: Calls) {
    && (forall q :: q in bag ==> Replaceable(q, n, calls) && bag[q] == 1)
    && (forall q, r :: q in bag && r in bag && q != r ==> Apart(q, r))
  }

  lemma OccursTwice(s: seq<Query>, i: nat, j: nat)
    requires i < j < |s| && s[i] == s[j]
    ensures multiset(s)[s[i]] >= 2
  {
    assert s == s[..j] + [s[j]] + s[j + 1..];
    assert s[i] == s[..j][i];
    assert s[i] in multiset(s[..j]);
  }

  lemma FirstOnce(s: seq<Query>, n: nat, calls: Calls)
    requires Stacked(s, n, calls) && s != []
    ensures s[0] !in s[1..]
  {
    forall i | 0 <= i < |s[1..]| ensures s[1..][i] != s[0] {
      StackedOrder(s, n, calls, 0, i + 1);
    }
  }

  lemma {:induction false} OccursOnce(s: seq<Query>, n: nat, calls: Calls, q: Query)
    requires Stacked(s, n, calls) && q in s
    ensures multiset(s)[q] == 1
  {
    hide Stacked;
    assert s == [s[0]] + s[1..];
    StackedTail(s, n, calls);
    FirstOnce(s, n, calls);
    if s[0] != q {
      OccursOnce(s[1..], n, calls, q);
    } else {
      assert q !in multiset(s[1..]);
    }
  }

  /** The replacement succeeds exactly on resolved, pairwise disjoint ranges inside the source. */
  lemma SucceedsIff(src: string, queries: seq<Query>, calls: Calls, ranges: seq<Query>, r: Result)
    requires SortedAs(queries, ranges) && Outcome(src, ranges, calls, r)
    ensures r.Ok? <==> Disjoint(multiset(queries), |SplitLines(src)|, calls)
  {
    hide Rewritten;
    var n := |SplitLines(src)|;
    var bag := multiset(queries);
    if r.Ok? {
      StackedDisjoint(ranges, n, calls);
    } else if Disjoint(bag, n, calls) {
      DisjointStacked(ranges, n, calls);
    }
  }

  lemma StackedDisjoint(ranges: seq<Query>, n: nat, calls: Calls)
    requires Stacked(ranges, n, calls)
    ensures Disjoint(multiset(ranges), n, calls)
  {
    forall q | q in multiset(ranges) ensures Replaceable(q, n, calls) && multiset(ranges)[q] == 1 {
      assert q in ranges;
      OccursOnce(ranges, n, calls, q);
    }
    forall q, r | q in multiset(ranges) && r in multiset(ranges) && q != r ensures Apart(q, r) {
      assert q in ranges && r in ranges;
      var i: nat :| i < |ranges| && ranges[i] == q;
      var j: nat :| j < |ranges| && ranges[j] == r;
      StackedOrder(ranges, n, calls, if i < j then i else j, if i < j then j else i);
    }
  }

  lemma DisjointStacked(ranges: seq<Query>, n: nat, calls: Calls)
    requires Ordered(ranges, Earlier) && Disjoint(multiset(ranges), n, calls)
    ensures Stacked(ranges, n, calls)
  {
    forall i | 0 <= i < |ranges| ensures Replaceable(ranges[i], n, calls) {
      assert ranges[i] in multiset(ranges);
    }
    forall i | 0 < i < |ranges| ensures ranges[i - 1].endLine < ranges[i].startLine {
      assert ranges[i] in multiset(ranges) && ranges[i - 1] in multiset(ranges);
      assert !Earlier(ranges[i], ranges[i - 1]);
      if ranges[i - 1] == ranges[i] {
        OccursTwice(ranges, i - 1, i);
      } else {
        assert Apart(ranges[i - 1], ranges[i]);
      }
    }
  }

  // ---------------------------------------------------------------- one range at a time

  /** Replacing a single range. */
  function ReplaceOne(lines: seq<string>, q: Query, calls: Calls): (r: seq<string>)
    requires Replaceable(q, |lines|, calls)
    ensures |r| >= q.startLine
  {
    lines[..q.startLine - 1] + [CallLine(lines, q, calls)] + lines[q.endLine..]
  }

  function BottomUp(lines: seq<string>, ranges: seq<Query>, calls: Calls): seq<string>
    requires Stacked(ranges, |lines|, calls)
    decreases |ranges|
  {
    if ranges == [] then lines
    else
      var n := |ranges| - 1;
      StackedBelow(lines, ranges, calls);
      BottomUp(ReplaceOne(lines, ranges[n], calls), ranges[..n], calls)
  }

  lemma StackedBelow(lines: seq<string>, ranges: seq<Query>, calls: Calls)
    requires Stacked(ranges, |lines|, calls) && ranges != []
    ensures var n := |ranges| - 1;
            Stacked(ranges[..n], |lines|, calls) && Stacked(ranges[..n], |ReplaceOne(lines, ranges[n], calls)|, calls)
  {
    var n := |ranges| - 1;
    StackedPrefix(ranges, n, |lines|, calls);
    forall i | 0 <= i < n ensures Replaceable(ranges[i], |ReplaceOne(lines, ranges[n], calls)|, calls) {
      StackedOrder(ranges, |lines|, calls, i, n);
      assert Replaceable(ranges[i], |lines|, calls);
    }
  }

  /** Lines past the ranges do not influence the splice. */
  lemma {:induction false} SpliceLocal(lines: seq<string>, lines': seq<string>, ranges: seq<Query>, calls: Calls, m: nat)
    requires m <= |lines| && m <= |lines'| && lines[..m] == lines'[..m]
    requires Stacked(ranges, m, calls)
    ensures Stacked(ranges, |lines|, calls) && Stacked(ranges, |lines'|, calls)
    ensures SpliceUpTo(lines, ranges, calls) == SpliceUpTo(lines', ranges, calls)
  {
    StackedWider(ranges, m, |lines|, calls);
    StackedWider(ranges, m, |lines'|, calls);
    if ranges != [] {
      var n := |ranges| - 1;
      StackedPrefix(ranges, n, m, calls);
      SpliceLocal(lines, lines', ranges[..n], calls, m);
      SpliceOneLocal(lines, lines', SpliceUpTo(lines, ranges[..n], calls), ranges[n], calls, m);
    }
  }

  lemma StackedWider(ranges: seq<Query>, m: nat, n: nat, calls: Calls)
    requires Stacked(ranges, m, calls) && m <= n
    ensures Stacked(ranges, n, calls)
  {
    forall i | 0 <= i < |ranges| ensures Replaceable(ranges[i], n, calls) {
      assert Replaceable(ranges[i], m, calls);
    }
  }

  lemma SpliceOneLocal(lines: seq<string>, lines': seq<string>, s: Splice, q: Query, calls: Calls, m: nat)
    requires m <= |lines| && m <= |lines'| && lines[..m] == lines'[..m]
    requires Replaceable(q, m, calls) && s.pos < q.startLine
    ensures SpliceOne(lines, s, q, calls) == SpliceOne(lines', s, q, calls)
  {
    var i, j := q.startLine - 1, q.endLine;
    SamePart(lines, lines', m, i, j);
    SamePart(lines, lines', m, s.pos, i);
    SamePart(lines, lines', m, i, i + 1);
    assert lines[i] == lines[i..i + 1][0] == lines'[i..i + 1][0] == lines'[i];
    hide JoinLines, CallText, Leading;
  }

  lemma SamePart(a: seq<string>, b: seq<string>, m: nat, i: nat, j: nat)
    requires i <= j <= m <= |a| && m <= |b| && a[..m] == b[..m]
    ensures a[i..j] == b[i..j]
  {
    forall k | 0 <= k < j - i ensures a[i..j][k] == b[i..j][k] {
      assert a[..m][i + k] == b[..m][i + k];
    }
  }

  /** The one-pass splice equals replacing the ranges one at a time, the lowest in the file first. */
  lemma {:induction false} SpliceIsBottomUp(lines: seq<string>, ranges: seq<Query>, calls: Calls)
    requires Stacked(ranges, |lines|, calls)
    ensures ViewLines(lines, ranges, calls) == BottomUp(lines, ranges, calls)
    decreases |ranges|
  {
    hide CallLine, Region;
    if ranges == [] {
      assert [] + lines[0..] == lines;
    } else {
      var n := |ranges| - 1;
      var q := ranges[n];
      StackedBelow(lines, ranges, calls);
      var lines' := ReplaceOne(lines, q, calls);
      SpliceIsBottomUp(lines', ranges[..n], calls);
      var m := q.startLine - 1;
      StackedUpTo(ranges, |lines|, calls);
      assert lines'[..m] == lines[..m];
      SpliceLocal(lines, lines', ranges[..n], calls, m);
      LastStep(lines, lines', ranges, calls);
    }
  }

  lemma StackedUpTo(ranges: seq<Query>, n: nat, calls: Calls)
    requires Stacked(ranges, n, calls) && ranges != []
    ensures Stacked(ranges[..|ranges| - 1], ranges[|ranges| - 1].startLine - 1, calls)
  {
    var k := |ranges| - 1;
    forall i | 0 <= i < k ensures Replaceable(ranges[i], ranges[k].startLine - 1, calls) {
      StackedOrder(ranges, n, calls, i, k);
      assert Replaceable(ranges[i], n, calls);
    }
  }

  /** Splicing one range and copying the rest equals copying the rest of the source with that range replaced. */
  lemma SpliceThenTail(lines: seq<string>, s: Splice, q: Query, calls: Calls)
    requires Replaceable(q, |lines|, calls) && s.pos < q.startLine
    ensures var r := SpliceOne(lines, s, q, calls);
            r.out + lines[r.pos..] == s.out + ReplaceOne(lines, q, calls)[s.pos..]
  {
    SpliceOneIs(lines, s, q, calls);
    hide CallLine, Region, SpliceOne, Resolved;
  }

  lemma LastStep(lines: seq<string>, lines': seq<string>, ranges: seq<Query>, calls: Calls)
    requires Stacked(ranges, |lines|, calls) && ranges != []
    requires lines' == ReplaceOne(lines, ranges[|ranges| - 1], calls)
    requires Stacked(ranges[..|ranges| - 1], |lines|, calls) && Stacked(ranges[..|ranges| - 1], |lines'|, calls)
    requires SpliceUpTo(lines, ranges[..|ranges| - 1], calls) == SpliceUpTo(lines', ranges[..|ranges| - 1], calls)
    ensures ViewLines(lines, ranges, calls) == ViewLines(lines', ranges[..|ranges| - 1], calls)
  {
    hide SpliceOne, ReplaceOne, Resolved;
    var n := |ranges| - 1;
    SpliceThenTail(lines, SpliceUpTo(lines, ranges[..n], calls), ranges[n], calls);
  }

  // ---------------------------------------------------------------- where everything ends up

  /** Lines the first `k` replacements have removed, net of the call lines they brought. */
  function Saved(ranges: seq<Query>, k: nat): int
    requires k <= |ranges|
  {
    if k == 0 then 0 else Saved(ranges, k - 1) + (ranges[k - 1].endLine - ranges[k - 1].startLine)
  }

  lemma SpliceOneExtends(lines: seq<string>, s: Splice, q: Query, calls: Calls)
    requires Replaceable(q, |lines|, calls) && s.pos < q.startLine
    ensures var r := SpliceOne(lines, s, q, calls); s.out <= r.out && s.report <= r.report
  {
    hide CallLine, Region;
  }

  /** Later replacements leave what was written as it is. */
  lemma {:induction false} SpliceExtends(lines: seq<string>, ranges: seq<Query>, calls: Calls, k: nat)
    requires Stacked(ranges, |lines|, calls) && k <= |ranges|
    ensures Stacked(ranges[..k], |lines|, calls)
    ensures var s, r := SpliceUpTo(lines, ranges[..k], calls), SpliceUpTo(lines, ranges, calls);
            s.out <= r.out && s.report <= r.report
    decreases |ranges|
  {
    hide SpliceOne;
    StackedPrefix(ranges, k, |lines|, calls);
    var n := |ranges| - 1;
    if k == |ranges| {
      assert ranges[..k] == ranges;
    } else {
      StackedPrefix(ranges, n, |lines|, calls);
      assert ranges[..n][..k] == ranges[..k];
      SpliceExtends(lines, ranges[..n], calls, k);
      SpliceOneExtends(lines, SpliceUpTo(lines, ranges[..n], calls), ranges[n], calls);
    }
  }

  predicate SitsAt(out: seq<string>, i: int, part: seq<string>) {
    0 <= i && i + |part| <= |out| && out[i..i + |part|] == part
  }

  lemma SitsInPrefix(a: seq<string>, b: seq<string>, i: int, part: seq<string>)
    requires a <= b && SitsAt(a, i, part)
    ensures SitsAt(b, i, part)
  {
    assert b[i..i + |part|] == a[i..i + |part|];
  }

  /** The lines between the k-th query and the one before it, and the k-th call, as written. */
  function KthPart(lines: seq<string>, ranges: seq<Query>, calls: Calls, k: nat): seq<string>
    requires Stacked(ranges, |lines|, calls) && k < |ranges|
  {
    lines[if k == 0 then 0 else ranges[k - 1].endLine..ranges[k].startLine - 1] + [CallLine(lines, ranges[k], calls)]
  }

  /** After the k-th replacement the k-th report is the last one, about the last line written. */
  lemma KthReport(lines: seq<string>, ranges: seq<Query>, calls: Calls, k: nat)
    requires Stacked(ranges, |lines|, calls) && k < |ranges|
    ensures Stacked(ranges[..k + 1], |lines|, calls)
    ensures var r, q := SpliceUpTo(lines, ranges[..k + 1], calls), ranges[k];
            && |r.report| == k + 1 && r.report[k].viewLine == |r.out| == q.startLine - Saved(ranges, k)
            && r.report[k].id == q.id && r.report[k].startLine == q.startLine && r.report[k].endLine == q.endLine
  {
    hide CallLine, Region, Resolved;
    StackedPrefix(ranges, k, |lines|, calls);
    var s, q := SpliceUpTo(lines, ranges[..k], calls), ranges[k];
    SpliceSize(lines, ranges[..k], calls);
    SavedPrefix(ranges, k, k);
    SpliceNext(lines, ranges, k, calls, s);
    hide SpliceUpTo, Stacked, Saved, SpliceOne;
    SpliceOneIs(lines, s, q, calls);
  }

  /** After the k-th replacement the k-th part ends what was written. */
  lemma KthSplice(lines: seq<string>, ranges: seq<Query>, calls: Calls, k: nat)
    requires Stacked(ranges, |lines|, calls) && k < |ranges|
    ensures Stacked(ranges[..k + 1], |lines|, calls)
    ensures var out, part := SpliceUpTo(lines, ranges[..k + 1], calls).out, KthPart(lines, ranges, calls, k);
            SitsAt(out, |out| - |part|, part)
  {
    hide CallLine, Region, Resolved, SitsAt;
    StackedPrefix(ranges, k, |lines|, calls);
    var s, q := SpliceUpTo(lines, ranges[..k], calls), ranges[k];
    SpliceNext(lines, ranges, k, calls, s);
    SpliceOneIs(lines, s, q, calls);
    hide SpliceUpTo, SpliceOne;
    var gap, call := lines[s.pos..q.startLine - 1], CallLine(lines, q, calls);
    assert KthPart(lines, ranges, calls, k) == gap + [call];
    hide Stacked, KthPart;
    EndsWith(s.out, gap, [call]);
  }

  lemma EndsWith(a: seq<string>, b: seq<string>, c: seq<string>)
    ensures SitsAt(a + b + c, |a|, b + c)
  {
    assert a + b + c == a + (b + c);
  }

  /** The k-th report describes the k-th query and gives the line of its call in the view; right above the
      call stand, unchanged, the lines between the query and the one before it. */
  lemma SpliceLayout(lines: seq<string>, ranges: seq<Query>, calls: Calls, k: nat)
    requires Stacked(ranges, |lines|, calls) && k < |ranges|
    ensures var s, q, part := SpliceUpTo(lines, ranges, calls), ranges[k], KthPart(lines, ranges, calls, k);
            && |s.report| == |ranges|
            && s.report[k].id == q.id && s.report[k].startLine == q.startLine && s.report[k].endLine == q.endLine
            && s.report[k].viewLine == q.startLine - Saved(ranges, k)
            && SitsAt(s.out, s.report[k].viewLine - |part|, part)
  {
    hide CallLine, Region, Stacked, SpliceUpTo, Resolved;
    SpliceSize(lines, ranges, calls);
    KthSplice(lines, ranges, calls, k);
    KthReport(lines, ranges, calls, k);
    SpliceExtends(lines, ranges, calls, k + 1);
    var r, part := SpliceUpTo(lines, ranges[..k + 1], calls), KthPart(lines, ranges, calls, k);
    SitsInPrefix(r.out, SpliceUpTo(lines, ranges, calls).out, |r.out| - |part|, part);
  }

  /** Below the last call stand the remaining lines. */
  lemma ViewTail(lines: seq<string>, ranges: seq<Query>, calls: Calls)
    requires Stacked(ranges, |lines|, calls) && ranges != []
    ensures var v, end := ViewLines(lines, ranges, calls), ranges[|ranges| - 1].endLine;
            |v| == |lines| - Saved(ranges, |ranges|) && v[end - Saved(ranges, |ranges|)..] == lines[end..]
  {
    SpliceSize(lines, ranges, calls);
  }

  lemma {:induction false} SavedPrefix(ranges: seq<Query>, n: nat, k: nat)
    requires k <= n <= |ranges|
    ensures Saved(ranges[..n], k) == Saved(ranges, k)
  {
    if k > 0 {
      SavedPrefix(ranges, n, k - 1);
    }
  }

  lemma {:induction false} SpliceSize(lines: seq<string>, ranges: seq<Query>, calls: Calls)
    requires Stacked(ranges, |lines|, calls)
    ensures var s := SpliceUpTo(lines, ranges, calls);
            |s.report| == |ranges| && |s.out| == s.pos - Saved(ranges, |ranges|)
  {
    hide CallLine, Region;
    if ranges != [] {
      var n := |ranges| - 1;
      StackedPrefix(ranges, n, |lines|, calls);
      SpliceSize(lines, ranges[..n], calls);
      SavedPrefix(ranges, n, n);
    }
  }

  function CallLines(lines: seq<string>, ranges: seq<Query>, calls: Calls): seq<string>
    requires Stacked(ranges, |lines|, calls)
  {
    seq(|ranges|, k requires 0 <= k < |ranges| => CallLine(lines, ranges[k], calls))
  }

  /** The report's view lines are lines of the rewritten source exactly when no call line holds a newline. */
  lemma ViewLinesAreLines(src: string, ranges: seq<Query>, calls: Calls)
    requires Stacked(ranges, |SplitLines(src)|, calls)
    ensures var lines := SplitLines(src);
            SplitLines(Rewritten(src, ranges, calls).source) == ViewLines(lines, ranges, calls) <==>
            AllOneLine(CallLines(lines, ranges, calls))
  {
    hide JoinLines, SplitLines, CallLines, OneLine, SpliceUpTo;
    var lines := SplitLines(src);
    SplitLinesOneLine(src);
    OutOneLine(lines, ranges, calls);
    var s, out := SpliceUpTo(lines, ranges, calls), ViewLines(lines, ranges, calls);
    AllOneLineConcat(s.out, lines[s.pos..]);
    SplitLinesOneLine(JoinLines(out));
    if AllOneLine(out) {
      NonEmptyView(lines, ranges, calls);
      SplitJoinLines(out);
    }
  }

  lemma NonEmptyView(lines: seq<string>, ranges: seq<Query>, calls: Calls)
    requires Stacked(ranges, |lines|, calls) && lines != []
    ensures ViewLines(lines, ranges, calls) != []
  {
    hide CallLine, Region;
  }

  lemma CallLinesNext(lines: seq<string>, ranges: seq<Query>, calls: Calls)
    requires Stacked(ranges, |lines|, calls) && ranges != []
    ensures var n := |ranges| - 1;
            && Stacked(ranges[..n], |lines|, calls)
            && CallLines(lines, ranges, calls) == CallLines(lines, ranges[..n], calls) + [CallLine(lines, ranges[n], calls)]
  {
    hide CallLine;
    StackedPrefix(ranges, |ranges| - 1, |lines|, calls);
  }

  lemma {:induction false} OutOneLine(lines: seq<string>, ranges: seq<Query>, calls: Calls)
    requires Stacked(ranges, |lines|, calls) && AllOneLine(lines)
    ensures AllOneLine(SpliceUpTo(lines, ranges, calls).out) <==> AllOneLine(CallLines(lines, ranges, calls))
  {
    hide CallLine, Region, OneLine;
    if ranges != [] {
      var n := |ranges| - 1;
      CallLinesNext(lines, ranges, calls);
      OutOneLine(lines, ranges[..n], calls);
      var s, q := SpliceUpTo(lines, ranges[..n], calls), ranges[n];
      var call, gap := CallLine(lines, q, calls), lines[s.pos..q.startLine - 1];
      assert SpliceUpTo(lines, ranges, calls).out == s.out + gap + [call];
      hide AllOneLine, CallLines;
      AllOneLineConcat(s.out + gap, [call]);
      AllOneLineConcat(s.out, gap);
      AllOneLineConcat(CallLines(lines, ranges[..n], calls), [call]);
    }
  }

  // ---------------------------------------------------------------- characters

  function Chars(lines: seq<string>): nat {
    if lines == [] then 0 else Chars(lines[..|lines| - 1]) + |lines[|lines| - 1]|
  }

  lemma {:induction false} CharsConcat(a: seq<string>, b: seq<string>)
    ensures Chars(a + b) == Chars(a) + Chars(b)
  {
    if b == [] {
      assert a + b == a;
    } else {
      var n := |b| - 1;
      assert (a + b)[..|a| + n] == a + b[..n];
      CharsConcat(a, b[..n]);
    }
  }

  lemma {:induction false} JoinedChars(lines: seq<string>)
    requires lines != []
    ensures |JoinLines(lines)| == Chars(lines) + |lines| - 1
  {
    if |lines| == 1 {
      assert Chars(lines) == Chars(lines[..0]) + |lines[0]|;
      assert lines[..0] == [];
    } else {
      JoinedChars(lines[1..]);
      assert lines == [lines[0]] + lines[1..];
      CharsConcat([lines[0]], lines[1..]);
      assert Chars([lines[0]]) == |lines[0]| by {
        assert [lines[0]][..0] == [];
      }
    }
  }

  /** Every replacement changes the characters written so far by what its report says. */
  lemma {:induction false} SpliceChars(lines: seq<string>, ranges: seq<Query>, calls: Calls)
    requires Stacked(ranges, |lines|, calls)
    ensures var s := SpliceUpTo(lines, ranges, calls);
            Chars(s.out) + |s.out| == Chars(lines[..s.pos]) + s.pos - s.before + s.after
  {
    hide CallLine, JoinLines, Chars;
    if ranges == [] {
      assert lines[..0] == [];
    } else {
      var n := |ranges| - 1;
      StackedPrefix(ranges, n, |lines|, calls);
      SpliceChars(lines, ranges[..n], calls);
      SpliceOneChars(lines, SpliceUpTo(lines, ranges[..n], calls), ranges[n], calls);
    }
  }

  lemma CharsOne(x: string)
    ensures Chars([x]) == |x|
  {
    assert [x][..0] == [];
  }

  lemma SpliceOneChars(lines: seq<string>, s: Splice, q: Query, calls: Calls)
    requires Replaceable(q, |lines|, calls) && s.pos < q.startLine
    requires Chars(s.out) + |s.out| == Chars(lines[..s.pos]) + s.pos - s.before + s.after
    ensures var r := SpliceOne(lines, s, q, calls);
            Chars(r.out) + |r.out| == Chars(lines[..r.pos]) + r.pos - r.before + r.after
  {
    hide CallLine, JoinLines, Chars;
    var gap, region, call := lines[s.pos..q.startLine - 1], lines[q.startLine - 1..q.endLine], CallLine(lines, q, calls);
    assert lines[..q.endLine] == lines[..s.pos] + gap + region;
    CharsConcat(lines[..s.pos] + gap, region);
    CharsConcat(lines[..s.pos], gap);
    CharsConcat(s.out + gap, [call]);
    CharsConcat(s.out, gap);
    CharsOne(call);
    JoinedChars(region);
  }

  /** The rewritten source is as long as the source less what was replaced plus what replaced it. */
  lemma CharsBalance(src: string, ranges: seq<Query>, calls: Calls)
    requires Stacked(ranges, |SplitLines(src)|, calls)
    ensures var v := Rewritten(src, ranges, calls); |v.source| == |src| - v.charsBefore + v.charsAfter
  {
    hide JoinLines, SplitLines, Chars, SpliceUpTo;
    var lines := SplitLines(src);
    var s := SpliceUpTo(lines, ranges, calls);
    SpliceChars(lines, ranges, calls);
    assert lines == lines[..s.pos] + lines[s.pos..];
    CharsConcat(lines[..s.pos], lines[s.pos..]);
    CharsConcat(s.out, lines[s.pos..]);
    NonEmptyView(lines, ranges, calls);
    JoinedChars(ViewLines(lines, ranges, calls));
    JoinedChars(lines);
    JoinSplitLines(src);
  }

  function SumBefore(report: seq<QueryReport>): nat {
    if report == [] then 0 else SumBefore(report[..|report| - 1]) + report[|report| - 1].charsBefore
  }

  function SumAfter(report: seq<QueryReport>): nat {
    if report == [] then 0 else SumAfter(report[..|report| - 1]) + report[|report| - 1].charsAfter
  }

  /** The view's totals are the sums of its reports. */
  lemma {:induction false} TotalsAreSums(lines: seq<string>, ranges: seq<Query>, calls: Calls)
    requires Stacked(ranges, |lines|, calls)
    ensures var s := SpliceUpTo(lines, ranges, calls); s.before == SumBefore(s.report) && s.after == SumAfter(s.report)
  {
    hide CallLine, Region;
    if ranges != [] {
      var n := |ranges| - 1;
      StackedPrefix(ranges, n, |lines|, calls);
      TotalsAreSums(lines, ranges[..n], calls);
      var s, r := SpliceUpTo(lines, ranges[..n], calls), SpliceUpTo(lines, ranges, calls);
      assert r.report[..|r.report| - 1] == s.report;
    }
  }

  // ---------------------------------------------------------------- the operation

  method ReplaceQueries(src: string, queries: seq<Query>, calls: Calls) returns (r: Result)
    ensures exists ranges :: SortedAs(queries, ranges) && Outcome(src, ranges, calls, r)
    ensures r.Ok? <==> Disjoint(multiset(queries), |SplitLines(src)|, calls)
  {
    hide Outcome, SortedAs, Disjoint;
    var ranges := SortSlice(queries, Earlier);
    var lines := SplitLines(src);
    var ok, fault := CheckRanges(ranges, |lines|, calls);
    if !ok {
      r := Err(fault);
      FaultOutcome(src, queries, calls, ranges, fault);
    } else {
      var view := SpliceRanges(lines, ranges, calls);
      r := Ok(view);
      ViewOutcome(src, queries, calls, ranges, view);
    }
    SucceedsIff(src, queries, calls, ranges, r);
  }

  lemma FaultOutcome(src: string, queries: seq<Query>, calls: Calls, ranges: seq<Query>, fault: Fault)
    requires multiset(ranges) == multiset(queries) && Ordered(ranges, Earlier)
    requires FirstFault(ranges, |SplitLines(src)|, calls, fault)
    ensures SortedAs(queries, ranges) && Outcome(src, ranges, calls, Err(fault))
  {
  }

  lemma ViewOutcome(src: string, queries: seq<Query>, calls: Calls, ranges: seq<Query>, view: View)
    requires multiset(ranges) == multiset(queries) && Ordered(ranges, Earlier)
    requires Stacked(ranges, |SplitLines(src)|, calls) && view == Rewritten(src, ranges, calls)
    ensures SortedAs(queries, ranges) && Outcome(src, ranges, calls, Ok(view))
  {
  }
}
