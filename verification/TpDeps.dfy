/** The Tuxedo service closure of the analyzer: every report's dependency list is grown in place,
    in report order, by searches that read the lists earlier searches already grew. */
module TpDeps {
  import opened ServiceGraph
  import opened Sorting
  import opened Text

  /** Target of a call whose first argument is not a string literal. */
  const DYNAMIC := "(dynamic)"

  datatype Dep = Dep(service: string, kind: string, calls: nat, depth: nat,
                     file: string, resolved: bool, score: int, complexity: string)

  datatype FnFileDep = FnFileDep(file: string, fns: seq<string>, score: int, complexity: string)

  datatype CalledFn = CalledFn(name: string, resolved: bool, definedIn: string)

  class Report {
    const file: string
    const complexityScore: int
    const complexity: string
    const externalFns: seq<CalledFn>
    var tpSvcDeps: seq<Dep>
    var tpDepScore: int
    var tpUnresolved: nat
    var fnFileDeps: seq<FnFileDep>
    var fnDepScore: int
    var tpTotalScore: int

    constructor (file: string, score: int, complexity: string, fns: seq<CalledFn>, deps: seq<Dep>)
      ensures this.file == file && complexityScore == score && this.complexity == complexity
      ensures externalFns == fns && tpSvcDeps == deps
    {
      this.file, complexityScore, this.complexity := file, score, complexity;
      externalFns, tpSvcDeps, fnFileDeps := fns, deps, [];
      tpDepScore, tpUnresolved, fnDepScore, tpTotalScore := 0, |deps|, 0, score;
    }
  }

  // ---------------------------------------------------------------- names

  /** Everything after the last slash. */
  function Base(path: string): string {
    if path == "" then ""
    else if path[|path| - 1] == '/' then ""
    else Base(path[..|path| - 1]) + [path[|path| - 1]]
  }

  /** The base name up to its last dot, if it has one. */
  function DropExt(name: string, i: nat): string
    requires i <= |name|
  {
    if i == 0 then name
    else if name[i - 1] == '.' then name[..i - 1]
    else DropExt(name, i - 1)
  }

  /** Match key of a scanned file. */
  function SvcStem(path: string): Key {
    var base := Base(path);
    ToLower(DropExt(base, |base|))
  }

  function KeyOf(d: Dep): Key {
    ToLower(d.service)
  }

  function Keys(ds: seq<Dep>): set<Key> {
    set d | d in ds :: KeyOf(d)
  }

  // ---------------------------------------------------------------- the graph

  /** The reports whose stem is `k`, in report order. */
  function Matches(reports: seq<Report>, k: Key): seq<Report> {
    if reports == [] then []
    else
      var last := reports[|reports| - 1];
      Matches(reports[..|reports| - 1], k) + if SvcStem(last.file) == k then [last] else []
  }

  lemma {:induction false} MatchesAreReports(reports: seq<Report>, k: Key)
    ensures forall i :: 0 <= i < |Matches(reports, k)| ==>
              Matches(reports, k)[i] in reports && SvcStem(Matches(reports, k)[i].file) == k
    ensures forall i :: 0 <= i < |reports| && SvcStem(reports[i].file) == k ==> reports[i] in Matches(reports, k)
  {
    hide SvcStem;
    if reports != [] {
      var n := |reports| - 1;
      MatchesAreReports(reports[..n], k);
      forall i | 0 <= i < |reports| && SvcStem(reports[i].file) == k ensures reports[i] in Matches(reports, k) {
        if i < n {
          assert reports[i] == reports[..n][i];
        }
      }
    }
  }

  /** The one-match rule: zero or several defining files leave a service unresolved. */
  predicate Unique(reports: seq<Report>, k: Key) {
    |Matches(reports, k)| == 1
  }

  function Stems(reports: seq<Report>): set<Key> {
    set r | r in reports :: SvcStem(r.file)
  }

  type Lists = map<Report, seq<Dep>>

  ghost function ListsOf(reports: seq<Report>): Lists
    reads reports
  {
    map r | r in reports :: r.tpSvcDeps
  }

  function NextKeys(reports: seq<Report>, lists: Lists, k: Key): set<Key> {
    var ms := Matches(reports, k);
    if |ms| == 1 && ms[0] in lists then Keys(lists[ms[0]]) else {}
  }

  /** The service graph read off the given dependency lists. */
  function GraphOf(reports: seq<Report>, lists: Lists): Graph {
    map k | k in Stems(reports) :: NextKeys(reports, lists, k)
  }

  lemma SuccOf(reports: seq<Report>, lists: Lists, k: Key)
    ensures Succ(GraphOf(reports, lists), k) == NextKeys(reports, lists, k)
  {
    MatchesAreReports(reports, k);
    if |Matches(reports, k)| == 1 {
      var m := Matches(reports, k)[0];
      assert m in reports;
      assert k in Stems(reports);
    }
  }

  // ---------------------------------------------------------------- resolution

  function ResolvedDep(reports: seq<Report>, d: Dep): Dep {
    var ms := Matches(reports, KeyOf(d));
    if d.service == DYNAMIC || |ms| != 1 then d
    else d.(file := ms[0].file, resolved := true, score := ms[0].complexityScore, complexity := ms[0].complexity)
  }

  /** A freshly grouped entry, before resolution. */
  predicate Skeleton(d: Dep) {
    !d.resolved && d.file == ""
  }

  /** The resolution half of an entry agrees with the scanned tree. */
  predicate WellResolved(reports: seq<Report>, d: Dep) {
    var ms := Matches(reports, KeyOf(d));
    if d.service != DYNAMIC && |ms| == 1
    then d.resolved && d.file == ms[0].file && d.score == ms[0].complexityScore && d.complexity == ms[0].complexity
    else !d.resolved && d.file == ""
  }

  predicate AllWellResolved(reports: seq<Report>, ds: seq<Dep>) {
    forall d :: d in ds ==> WellResolved(reports, d)
  }

  predicate Direct(reports: seq<Report>, ds: seq<Dep>) {
    AllWellResolved(reports, ds) && forall d :: d in ds ==> d.depth == 1
  }

  // ---------------------------------------------------------------- sums

  function ScoreSum(ds: seq<Dep>): int {
    if ds == [] then 0 else (if ds[0].resolved then ds[0].score else 0) + ScoreSum(ds[1..])
  }

  function UnresolvedCount(ds: seq<Dep>): nat {
    if ds == [] then 0 else (if ds[0].resolved then 0 else 1) + UnresolvedCount(ds[1..])
  }

  lemma {:induction false} SumsSplit(a: seq<Dep>, b: seq<Dep>)
    ensures ScoreSum(a + b) == ScoreSum(a) + ScoreSum(b)
    ensures UnresolvedCount(a + b) == UnresolvedCount(a) + UnresolvedCount(b)
  {
    if a == [] {
      assert a + b == b;
    } else {
      SumsSplit(a[1..], b);
      assert (a + b)[1..] == a[1..] + b;
    }
  }

  lemma SumsWithout(b: seq<Dep>, i: nat)
    requires i < |b|
    ensures ScoreSum(b) == ScoreSum(b[..i] + b[i + 1..]) + ScoreSum([b[i]])
    ensures UnresolvedCount(b) == UnresolvedCount(b[..i] + b[i + 1..]) + UnresolvedCount([b[i]])
  {
    hide ScoreSum, UnresolvedCount;
    SumsSplit(b[..i], b[i + 1..]);
    SumsSplit(b[..i], [b[i]] + b[i + 1..]);
    SumsSplit([b[i]], b[i + 1..]);
    assert b == b[..i] + ([b[i]] + b[i + 1..]);
  }

  lemma {:induction false} SumsPermute(a: seq<Dep>, b: seq<Dep>)
    requires multiset(a) == multiset(b)
    ensures ScoreSum(a) == ScoreSum(b) && UnresolvedCount(a) == UnresolvedCount(b)
  {
    PermutedMembers(a, b);
    if a != [] {
      assert a[0] in a;
      var i :| 0 <= i < |b| && b[i] == a[0];
      MultisetTail(a);
      MultisetRemove(b, i);
      SumsPermute(a[1..], b[..i] + b[i + 1..]);
      SumsWithout(b, i);
    }
  }

  // ---------------------------------------------------------------- the search

  /** A service whose defining file is still to be read; its own targets will get `depth`. */
  datatype QueueItem = QueueItem(svc: Key, depth: nat)

  ghost predicate Queued(queue: seq<QueueItem>, k: Key) {
    exists i :: 0 <= i < |queue| && queue[i].svc == k
  }

  /** The queue holds each service once, in depth order, spanning at most two neighbouring depths. */
  ghost predicate QueueShape(d: map<Key, nat>, queue: seq<QueueItem>, level: nat) {
    && (forall i :: 0 <= i < |queue| ==> queue[i].svc in d && queue[i].depth == d[queue[i].svc] + 1)
    && (forall i, j :: 0 <= i < j < |queue| ==> queue[i].svc != queue[j].svc && queue[i].depth <= queue[j].depth)
    && (forall i :: 0 <= i < |queue| ==> level <= queue[i].depth <= level + 1)
    && (forall k :: k in d ==> d[k] <= level)
  }

  ghost predicate Labelled(g: Graph, start: set<Key>, root: Key, d: map<Key, nat>) {
    && root !in d
    && (forall k :: k in start && k != root ==> k in d && d[k] == 1)
    && (forall k :: k in d ==> 1 <= d[k] && k in Within(g, start, d[k]))
  }

  ghost predicate Closed(g: Graph, root: Key, d: map<Key, nat>, k: Key) {
    k in d && forall x :: x in Succ(g, k) && x != root ==> x in d && d[x] <= d[k] + 1
  }

  ghost predicate ClosedOutside(g: Graph, root: Key, d: map<Key, nat>, queue: seq<QueueItem>, busy: set<Key>) {
    forall k :: k in d && !Queued(queue, k) && k !in busy ==> Closed(g, root, d, k)
  }

  lemma QueuedPlus(queue: seq<QueueItem>, q: QueueItem, k: Key)
    ensures Queued(queue + [q], k) <==> Queued(queue, k) || k == q.svc
  {
    var queue' := queue + [q];
    assert queue'[|queue|] == q;
    if Queued(queue, k) {
      var i :| 0 <= i < |queue| && queue[i].svc == k;
      assert queue'[i].svc == k;
    }
  }

  lemma QueuedHead(queue: seq<QueueItem>, k: Key)
    requires |queue| > 0
    ensures Queued(queue, k) <==> k == queue[0].svc || Queued(queue[1..], k)
  {
    if Queued(queue[1..], k) {
      var i :| 0 <= i < |queue[1..]| && queue[1..][i].svc == k;
      assert queue[i + 1].svc == k;
    }
    if Queued(queue, k) && k != queue[0].svc {
      var i :| 0 <= i < |queue| && queue[i].svc == k;
      assert queue[1..][i - 1].svc == k;
    }
  }

  lemma PushKeepsClosed(g: Graph, root: Key, d: map<Key, nat>, queue: seq<QueueItem>, busy: set<Key>, x: Key, l: nat)
    requires ClosedOutside(g, root, d, queue, busy) && x !in d
    ensures ClosedOutside(g, root, d[x := l], queue + [QueueItem(x, l + 1)], busy)
  {
    var d', queue' := d[x := l], queue + [QueueItem(x, l + 1)];
    forall k | k in d' && !Queued(queue', k) && k !in busy ensures Closed(g, root, d', k) {
      QueuedPlus(queue, QueueItem(x, l + 1), k);
      assert Closed(g, root, d, k);
    }
  }

  lemma PopKeepsClosed(g: Graph, root: Key, d: map<Key, nat>, queue: seq<QueueItem>)
    requires |queue| > 0 && ClosedOutside(g, root, d, queue, {})
    ensures ClosedOutside(g, root, d, queue[1..], {queue[0].svc})
  {
    forall k | k in d && !Queued(queue[1..], k) && k != queue[0].svc ensures Closed(g, root, d, k) {
      QueuedHead(queue, k);
    }
  }

  lemma ReadKeepsClosed(g: Graph, root: Key, d: map<Key, nat>, queue: seq<QueueItem>, k: Key)
    requires ClosedOutside(g, root, d, queue, {k}) && Closed(g, root, d, k)
    ensures ClosedOutside(g, root, d, queue, {})
  {
  }

  /** The entries appended so far are exactly the labelled services that are not direct targets. */
  ghost predicate FoundMatches(reports: seq<Report>, start: set<Key>, d: map<Key, nat>, found: seq<Dep>) {
    && AllWellResolved(reports, found)
    && (forall i, j :: 0 <= i < j < |found| ==> KeyOf(found[i]) != KeyOf(found[j]))
    && Keys(found) == d.Keys - start
    && (forall e :: e in found ==> KeyOf(e) in d && e.depth == d[KeyOf(e)] >= 2)
  }

  lemma KeysPlus(ds: seq<Dep>, e: Dep)
    ensures Keys(ds + [e]) == Keys(ds) + {KeyOf(e)}
  {
    assert (ds + [e])[|ds|] == e;
    forall d | d in ds ensures d in ds + [e] {
    }
  }

  lemma PushFound(reports: seq<Report>, start: set<Key>, d: map<Key, nat>, found: seq<Dep>, e: Dep)
    requires FoundMatches(reports, start, d, found) && WellResolved(reports, e)
    requires KeyOf(e) !in d && KeyOf(e) !in start && e.depth >= 2
    ensures FoundMatches(reports, start, d[KeyOf(e) := e.depth], found + [e])
  {
    var d', found' := d[KeyOf(e) := e.depth], found + [e];
    forall i, j | 0 <= i < j < |found'| ensures KeyOf(found'[i]) != KeyOf(found'[j]) {
      assert found[i] in found;
    }
    KeysPlus(found, e);
  }

  /** What one report's search finds: every service reachable beyond the direct targets, once,
      at its shortest call distance in the graph of the lists as they stood. */
  ghost predicate SearchResult(reports: seq<Report>, lists: Lists, r: Report, found: seq<Dep>)
    requires r in lists
  {
    var g, start, root := GraphOf(reports, lists), Keys(lists[r]), SvcStem(r.file);
    && AllWellResolved(reports, found)
    && (forall i, j :: 0 <= i < j < |found| ==> KeyOf(found[i]) != KeyOf(found[j]))
    && (forall k :: k in Keys(found) <==> Reaches(g, start, k) && k !in start && k != root)
    && (forall e :: e in found ==> e.depth >= 2 && AtDistance(g, start, KeyOf(e), e.depth))
  }

  lemma LabelPush(g: Graph, start: set<Key>, root: Key, d: map<Key, nat>, queue: seq<QueueItem>,
                  k: Key, x: Key, depth: nat)
    requires Labelled(g, start, root, d) && QueueShape(d, queue, depth)
    requires k in d && d[k] + 1 == depth && x in Succ(g, k) && x !in d && x != root
    ensures Labelled(g, start, root, d[x := depth])
    ensures QueueShape(d[x := depth], queue + [QueueItem(x, depth + 1)], depth)
    ensures x !in start && depth >= 2
  {
    assert x in Within(g, start, depth);
    QueuePush(d, queue, x, depth);
    hide QueueShape;
  }

  lemma QueuePush(d: map<Key, nat>, queue: seq<QueueItem>, x: Key, depth: nat)
    requires QueueShape(d, queue, depth) && x !in d
    ensures QueueShape(d[x := depth], queue + [QueueItem(x, depth + 1)], depth)
  {
  }

  /** Everything a search knows between two appends; `busy` is the service being read, if any. */
  ghost predicate Searching(reports: seq<Report>, g: Graph, start: set<Key>, root: Key, d: map<Key, nat>,
                            queue: seq<QueueItem>, busy: set<Key>, level: nat, found: seq<Dep>) {
    && Labelled(g, start, root, d)
    && QueueShape(d, queue, level)
    && ClosedOutside(g, root, d, queue, busy)
    && FoundMatches(reports, start, d, found)
  }

  lemma Append(reports: seq<Report>, g: Graph, start: set<Key>, root: Key, d: map<Key, nat>,
               queue: seq<QueueItem>, k: Key, level: nat, found: seq<Dep>, e: Dep, x: Key)
    requires Searching(reports, g, start, root, d, queue, {k}, level, found)
    requires k in d && d[k] + 1 == level == e.depth && WellResolved(reports, e)
    requires x == KeyOf(e) && x in Succ(g, k) && x !in d && x != root
    ensures Searching(reports, g, start, root, d[x := level], queue + [QueueItem(x, level + 1)], {k}, level, found + [e])
  {
    LabelPush(g, start, root, d, queue, k, x, level);
    PushKeepsClosed(g, root, d, queue, {k}, x, level);
    PushFound(reports, start, d, found, e);
  }

  lemma Pop(reports: seq<Report>, g: Graph, start: set<Key>, root: Key, d: map<Key, nat>,
            queue: seq<QueueItem>, level: nat, found: seq<Dep>)
    requires |queue| > 0 && Searching(reports, g, start, root, d, queue, {}, level, found)
    ensures Searching(reports, g, start, root, d, queue[1..], {queue[0].svc}, queue[0].depth, found)
    ensures queue[0].svc in d && d[queue[0].svc] + 1 == queue[0].depth
  {
    PopKeepsClosed(g, root, d, queue);
  }

  lemma ReadDone(reports: seq<Report>, g: Graph, start: set<Key>, root: Key, d: map<Key, nat>,
                 queue: seq<QueueItem>, k: Key, level: nat, found: seq<Dep>)
    requires Searching(reports, g, start, root, d, queue, {k}, level, found)
    requires k in d && d[k] + 1 == level && forall x :: x in Succ(g, k) && x != root ==> x in d
    ensures Searching(reports, g, start, root, d, queue, {}, level, found)
  {
    assert Closed(g, root, d, k);
    ReadKeepsClosed(g, root, d, queue, k);
  }

  lemma UniqueSelf(reports: seq<Report>, r: Report)
    requires r in reports && |Matches(reports, SvcStem(r.file))| == 1
    ensures Matches(reports, SvcStem(r.file))[0] == r
  {
    MatchesAreReports(reports, SvcStem(r.file));
    var i :| 0 <= i < |reports| && reports[i] == r;
  }

  lemma RootCallsOnlyDirect(reports: seq<Report>, lists: Lists, r: Report)
    requires r in lists && r in reports
    ensures Succ(GraphOf(reports, lists), SvcStem(r.file)) <= Keys(lists[r])
  {
    var root := SvcStem(r.file);
    SuccOf(reports, lists, root);
    if |Matches(reports, root)| == 1 {
      UniqueSelf(reports, r);
    }
  }

  lemma LabelsComplete(g: Graph, start: set<Key>, root: Key, d: map<Key, nat>)
    requires Labelled(g, start, root, d) && Succ(g, root) <= start
    requires ClosedOutside(g, root, d, [], {})
    ensures forall k :: k in d <==> Reaches(g, start, k) && k != root
    ensures forall k :: k in d ==> AtDistance(g, start, k, d[k])
  {
    forall k | k in d ensures Closed(g, root, d, k) {
      assert !Queued([], k);
    }
    assert Labelling(g, start, root, d);
    forall k ensures k in d <==> Reaches(g, start, k) && k != root {
      LabellingIsDistance(g, start, root, d, k);
    }
    forall k | k in d ensures AtDistance(g, start, k, d[k]) {
      LabellingIsDistance(g, start, root, d, k);
    }
  }

  lemma SearchDone(reports: seq<Report>, lists: Lists, r: Report, d: map<Key, nat>, level: nat, found: seq<Dep>)
    requires r in lists && r in reports
    requires Searching(reports, GraphOf(reports, lists), Keys(lists[r]), SvcStem(r.file), d, [], {}, level, found)
    ensures SearchResult(reports, lists, r, found)
  {
    var g, start, root := GraphOf(reports, lists), Keys(lists[r]), SvcStem(r.file);
    RootCallsOnlyDirect(reports, lists, r);
    LabelsComplete(g, start, root, d);
    assert forall k :: k in Keys(found) <==> k in d && k !in start;
  }

  /** Entries that resolve to the report's own file are dropped. */
  function NotSelf(r: Report, ds: seq<Dep>): seq<Dep> {
    if ds == [] then []
    else (if ds[0].resolved && ds[0].file == r.file then [] else [ds[0]]) + NotSelf(r, ds[1..])
  }

  lemma {:induction false} NotSelfSplit(r: Report, a: seq<Dep>, b: seq<Dep>)
    ensures NotSelf(r, a + b) == NotSelf(r, a) + NotSelf(r, b)
  {
    if a == [] {
      assert a + b == b;
    } else {
      assert (a + b)[1..] == a[1..] + b && (a + b)[0] == a[0];
      NotSelfSplit(r, a[1..], b);
    }
  }

  lemma {:induction false} NotSelfKeeps(r: Report, ds: seq<Dep>)
    requires forall d :: d in ds ==> !(d.resolved && d.file == r.file)
    ensures NotSelf(r, ds) == ds
  {
    if ds != [] {
      NotSelfKeeps(r, ds[1..]);
    }
  }

  lemma {:induction false} NotSelfMembers(r: Report, ds: seq<Dep>)
    ensures forall d :: d in NotSelf(r, ds) <==> d in ds && !(d.resolved && d.file == r.file)
  {
    if ds != [] {
      NotSelfMembers(r, ds[1..]);
      assert ds == [ds[0]] + ds[1..];
    }
  }

  /** An entry naming another key never resolves to the report's own file. */
  lemma OtherKeyOtherFile(reports: seq<Report>, r: Report, d: Dep)
    requires WellResolved(reports, d) && KeyOf(d) != SvcStem(r.file) && r.file != ""
    ensures d.file != r.file
  {
    var ms := Matches(reports, KeyOf(d));
    MatchesAreReports(reports, KeyOf(d));
    if d.service != DYNAMIC && |ms| == 1 {
      assert SvcStem(ms[0].file) == KeyOf(d);
    }
  }

  predicate DepthThenService(a: Dep, b: Dep) {
    if a.depth != b.depth then a.depth < b.depth else StringLess(a.service, b.service)
  }

  lemma DepthThenServiceAsymmetric()
    ensures Asymmetric(DepthThenService)
  {
    forall a: Dep, b: Dep ensures !(DepthThenService(a, b) && DepthThenService(b, a)) {
      StringLessAsymmetric(a.service, b.service);
    }
  }

  ghost predicate IndexedByStem(reports: seq<Report>, byStem: map<Key, seq<Report>>) {
    forall k :: Matches(reports, k) == if k in byStem then byStem[k] else []
  }

  // ---------------------------------------------------------------- the search as a function

  /** Loop state of the search: services seen, files still to read, entries appended. */
  datatype Search = Search(seen: set<Key>, queue: seq<QueueItem>, found: seq<Dep>)

  function SeedOne(st: Search, key: Key): Search {
    if key in st.seen then st else st.(seen := st.seen + {key}, queue := st.queue + [QueueItem(key, 2)])
  }

  function Seed(root: Key, direct: seq<Dep>): Search {
    if direct == [] then Search({root}, [], [])
    else SeedOne(Seed(root, direct[..|direct| - 1]), KeyOf(direct[|direct| - 1]))
  }

  function See(rootFile: string, depth: nat, st: Search, e: Dep): Search {
    var key := KeyOf(e);
    if key in st.seen then st
    else if e.file == rootFile then st.(seen := st.seen + {key})
    else Search(st.seen + {key}, st.queue + [QueueItem(key, depth + 1)], st.found + [e.(depth := depth)])
  }

  function Read(rootFile: string, depth: nat, st: Search, deps: seq<Dep>): (r: Search)
    ensures st.seen <= r.seen <= st.seen + Keys(deps)
    ensures r.seen == st.seen ==> r == st
    ensures forall d :: d in deps ==> KeyOf(d) in r.seen
  {
    if deps == [] then st
    else
      var n := |deps| - 1;
      assert deps == deps[..n] + [deps[n]];
      See(rootFile, depth, Read(rootFile, depth, st, deps[..n]), deps[n])
  }

  lemma ReadNothing(rootFile: string, depth: nat, st: Search, deps: seq<Dep>)
    ensures Read(rootFile, depth, st, deps[..0]) == st
  {
  }

  lemma ReadSnoc(rootFile: string, depth: nat, st: Search, deps: seq<Dep>, i: nat)
    requires i < |deps|
    ensures Read(rootFile, depth, st, deps[..i + 1]) == See(rootFile, depth, Read(rootFile, depth, st, deps[..i]), deps[i])
  {
    assert deps[..i + 1][..i] == deps[..i];
  }

  function Step(reports: seq<Report>, lists: Lists, rootFile: string, st: Search): Search
    requires st.queue != []
  {
    var item, rest := st.queue[0], st.(queue := st.queue[1..]);
    var ms := Matches(reports, item.svc);
    if |ms| == 1 && ms[0] in lists then Read(rootFile, item.depth, rest, lists[ms[0]]) else rest
  }

  ghost function AllKeys(lists: Lists): set<Key> {
    set m, e | m in lists && e in lists[m] :: KeyOf(e)
  }

  ghost function Run(reports: seq<Report>, lists: Lists, rootFile: string, st: Search): Search
    decreases AllKeys(lists) - st.seen, |st.queue|
  {
    if st.queue == [] then st else Run(reports, lists, rootFile, Step(reports, lists, rootFile, st))
  }

  lemma StepShrinks(reports: seq<Report>, lists: Lists, rootFile: string, st: Search)
    requires st.queue != []
    ensures var st' := Step(reports, lists, rootFile, st);
            st.seen <= st'.seen <= st.seen + AllKeys(lists) &&
            (st'.seen == st.seen ==> |st'.queue| < |st.queue|)
  {
  }

  ghost predicate Seeded(d: map<Key, nat>, queue: seq<QueueItem>) {
    && (forall k :: k in d ==> d[k] == 1 && Queued(queue, k))
    && (forall i :: 0 <= i < |queue| ==> queue[i].svc in d && queue[i].depth == 2)
    && (forall i, j :: 0 <= i < j < |queue| ==> queue[i].svc != queue[j].svc)
  }

  lemma SeedPush(d: map<Key, nat>, queue: seq<QueueItem>, key: Key)
    requires Seeded(d, queue) && key !in d
    ensures Seeded(d[key := 1], queue + [QueueItem(key, 2)])
  {
    forall k | k in d[key := 1] ensures Queued(queue + [QueueItem(key, 2)], k) {
      QueuedPlus(queue, QueueItem(key, 2), k);
    }
  }

  lemma {:induction false} SeedKeeps(root: Key, direct: seq<Dep>) returns (d: map<Key, nat>)
    ensures var st := Seed(root, direct);
            st.seen == Keys(direct) + {root} == d.Keys + {root} && st.found == [] && root !in d && Seeded(d, st.queue)
  {
    if direct == [] {
      d := map[];
    } else {
      var n := |direct| - 1;
      var st, key := Seed(root, direct[..n]), KeyOf(direct[n]);
      assert direct == direct[..n] + [direct[n]];
      KeysPlus(direct[..n], direct[n]);
      d := SeedKeeps(root, direct[..n]);
      if key !in st.seen {
        SeedPush(d, st.queue, key);
        d := d[key := 1];
      }
    }
  }

  lemma SeedSearching(reports: seq<Report>, g: Graph, root: Key, direct: seq<Dep>) returns (d: map<Key, nat>)
    ensures var st := Seed(root, direct);
            st.seen == d.Keys + {root} && st.found == [] &&
            Searching(reports, g, Keys(direct), root, d, st.queue, {}, 2, st.found)
  {
    d := SeedKeeps(root, direct);
    forall k | k in d ensures k in Within(g, Keys(direct), 1) {
    }
  }

  /** Reading one service's list keeps the search invariant. */
  lemma {:induction false} ReadKeeps(reports: seq<Report>, r: Report, g: Graph, start: set<Key>, k: Key,
                                     depth: nat, st: Search, d: map<Key, nat>, deps: seq<Dep>)
    returns (d': map<Key, nat>)
    requires r.file != "" && AllWellResolved(reports, deps) && Keys(deps) <= Succ(g, k)
    requires k in d && d[k] + 1 == depth && st.seen == d.Keys + {SvcStem(r.file)}
    requires Searching(reports, g, start, SvcStem(r.file), d, st.queue, {k}, depth, st.found)
    ensures var st' := Read(r.file, depth, st, deps);
            k in d' && d'[k] + 1 == depth && st'.seen == d'.Keys + {SvcStem(r.file)} &&
            Searching(reports, g, start, SvcStem(r.file), d', st'.queue, {k}, depth, st'.found)
  {
    hide Searching, ToLower, Matches;
    d' := d;
    if deps != [] {
      var n := |deps| - 1;
      assert deps == deps[..n] + [deps[n]];
      KeysPlus(deps[..n], deps[n]);
      d' := ReadKeeps(reports, r, g, start, k, depth, st, d, deps[..n]);
      var mid, e, key := Read(r.file, depth, st, deps[..n]), deps[n], KeyOf(deps[n]);
      if key !in mid.seen {
        OtherKeyOtherFile(reports, r, e);
        Append(reports, g, start, SvcStem(r.file), d', mid.queue, k, depth, mid.found, e.(depth := depth), key);
        d' := d'[key := depth];
      }
    }
  }

  lemma StepKeeps(reports: seq<Report>, lists: Lists, r: Report, start: set<Key>, st: Search,
                  d: map<Key, nat>, level: nat)
    returns (d': map<Key, nat>, level': nat)
    requires st.queue != [] && r.file != "" && (forall m :: m in reports ==> m in lists && AllWellResolved(reports, lists[m]))
    requires st.seen == d.Keys + {SvcStem(r.file)}
    requires Searching(reports, GraphOf(reports, lists), start, SvcStem(r.file), d, st.queue, {}, level, st.found)
    ensures var st' := Step(reports, lists, r.file, st);
            st'.seen == d'.Keys + {SvcStem(r.file)} &&
            Searching(reports, GraphOf(reports, lists), start, SvcStem(r.file), d', st'.queue, {}, level', st'.found)
  {
    var g, root, item, rest := GraphOf(reports, lists), SvcStem(r.file), st.queue[0], st.(queue := st.queue[1..]);
    Pop(reports, g, start, root, d, st.queue, level, st.found);
    SuccOf(reports, lists, item.svc);
    MatchesAreReports(reports, item.svc);
    d', level' := d, item.depth;
    var ms := Matches(reports, item.svc);
    if |ms| == 1 {
      d' := ReadKeeps(reports, r, g, start, item.svc, item.depth, rest, d, lists[ms[0]]);
    }
    var st' := Step(reports, lists, r.file, st);
    ReadDone(reports, g, start, root, d', st'.queue, item.svc, level', st'.found);
  }

  lemma {:induction false} RunFinds(reports: seq<Report>, lists: Lists, r: Report, st: Search,
                                    d: map<Key, nat>, level: nat)
    requires r in reports && r.file != "" && (forall m :: m in reports ==> m in lists && AllWellResolved(reports, lists[m]))
    requires st.seen == d.Keys + {SvcStem(r.file)}
    requires Searching(reports, GraphOf(reports, lists), Keys(lists[r]), SvcStem(r.file), d, st.queue, {}, level, st.found)
    ensures SearchResult(reports, lists, r, Run(reports, lists, r.file, st).found)
    decreases AllKeys(lists) - st.seen, |st.queue|
  {
    if st.queue == [] {
      SearchDone(reports, lists, r, d, level, st.found);
    } else {
      var d', level' := StepKeeps(reports, lists, r, Keys(lists[r]), st, d, level);
      StepShrinks(reports, lists, r.file, st);
      RunFinds(reports, lists, r, Step(reports, lists, r.file, st), d', level');
    }
  }

  /** The search from one report finds exactly what is reachable, each at its shortest distance. */
  lemma SearchFinds(reports: seq<Report>, lists: Lists, r: Report)
    requires r in reports && r.file != "" && (forall m :: m in reports ==> m in lists && AllWellResolved(reports, lists[m]))
    ensures SearchResult(reports, lists, r, Run(reports, lists, r.file, Seed(SvcStem(r.file), lists[r])).found)
  {
    var d := SeedSearching(reports, GraphOf(reports, lists), SvcStem(r.file), lists[r]);
    RunFinds(reports, lists, r, Seed(SvcStem(r.file), lists[r]), d, 2);
  }

  /** The tail of the search: self entries go, the list is sorted, the scores are folded. */
  method FinishClosure(r: Report)
    modifies r`tpSvcDeps, r`tpDepScore, r`tpUnresolved
    ensures multiset(r.tpSvcDeps) == multiset(NotSelf(r, old(r.tpSvcDeps)))
    ensures Ordered(r.tpSvcDeps, DepthThenService)
    ensures r.tpDepScore == ScoreSum(r.tpSvcDeps) && r.tpUnresolved == UnresolvedCount(r.tpSvcDeps)
  {
    var deps, kept := r.tpSvcDeps, [];
    for i := 0 to |deps|
      invariant kept == NotSelf(r, deps[..i])
    {
      assert deps[..i + 1] == deps[..i] + [deps[i]];
      NotSelfSplit(r, deps[..i], [deps[i]]);
      if !(deps[i].resolved && deps[i].file == r.file) {
        kept := kept + [deps[i]];
      }
    }
    assert deps[..|deps|] == deps;
    DepthThenServiceAsymmetric();
    assert kept == NotSelf(r, deps);
    var sorted := SortSlice(kept, DepthThenService);
    var depScore, unresolved := 0, 0;
    for i := 0 to |sorted|
      invariant depScore == ScoreSum(sorted[..i]) && unresolved == UnresolvedCount(sorted[..i])
    {
      assert sorted[..i + 1] == sorted[..i] + [sorted[i]];
      SumsSplit(sorted[..i], [sorted[i]]);
      if sorted[i].resolved {
        depScore := depScore + sorted[i].score;
      } else {
        unresolved := unresolved + 1;
      }
    }
    assert sorted[..|sorted|] == sorted;
    r.tpSvcDeps, r.tpDepScore, r.tpUnresolved := sorted, depScore, unresolved;
  }

  /** The root's own stem is never queued, so its list is never read while it grows. */
  predicate Avoids(st: Search, root: Key) {
    root in st.seen && forall i :: 0 <= i < |st.queue| ==> st.queue[i].svc != root
  }

  lemma {:induction false} SeedAvoids(root: Key, direct: seq<Dep>)
    ensures Avoids(Seed(root, direct), root)
  {
    if direct != [] {
      SeedAvoids(root, direct[..|direct| - 1]);
    }
  }

  lemma {:induction false} ReadAvoids(root: Key, rootFile: string, depth: nat, st: Search, deps: seq<Dep>)
    requires Avoids(st, root)
    ensures Avoids(Read(rootFile, depth, st, deps), root)
  {
    if deps != [] {
      ReadAvoids(root, rootFile, depth, st, deps[..|deps| - 1]);
    }
  }

  lemma StepAvoids(reports: seq<Report>, lists: Lists, root: Key, rootFile: string, st: Search)
    requires st.queue != [] && Avoids(st, root)
    ensures Avoids(Step(reports, lists, rootFile, st), root)
  {
    var item, rest, ms := st.queue[0], st.(queue := st.queue[1..]), Matches(reports, st.queue[0].svc);
    if |ms| == 1 && ms[0] in lists {
      ReadAvoids(root, rootFile, item.depth, rest, lists[ms[0]]);
    }
  }

  /** The first loop of the search: each distinct direct target enters the queue once. */
  method SeedQueue(root: Key, direct: seq<Dep>) returns (seen: set<Key>, queue: seq<QueueItem>)
    ensures Search(seen, queue, []) == Seed(root, direct)
  {
    seen, queue := {root}, [];
    for i := 0 to |direct|
      invariant Search(seen, queue, []) == Seed(root, direct[..i])
    {
      assert direct[..i + 1][..i] == direct[..i];
      var key := KeyOf(direct[i]);
      if key !in seen {
        seen, queue := seen + {key}, queue + [QueueItem(key, 2)];
      }
    }
    assert direct[..|direct|] == direct;
  }

  /** The inner loop: the unseen targets of one file are appended to the report's own list. */
  method ReadList(r: Report, next: Report, depth: nat, seen0: set<Key>, queue0: seq<QueueItem>,
                  ghost direct: seq<Dep>, ghost found0: seq<Dep>)
    returns (seen: set<Key>, queue: seq<QueueItem>, ghost found: seq<Dep>)
    requires next != r && r.tpSvcDeps == direct + found0
    modifies r`tpSvcDeps
    ensures r.tpSvcDeps == direct + found
    ensures Search(seen, queue, found) == Read(r.file, depth, Search(seen0, queue0, found0), next.tpSvcDeps)
  {
    seen, queue, found := seen0, queue0, found0;
    ghost var st0 := Search(seen0, queue0, found0);
    var deps := next.tpSvcDeps;
    ReadNothing(r.file, depth, st0, deps);
    hide Read, KeyOf;
    for i := 0 to |deps|
      invariant r.tpSvcDeps == direct + found
      invariant Search(seen, queue, found) == Read(r.file, depth, st0, deps[..i])
    {
      ReadSnoc(r.file, depth, st0, deps, i);
      var e := deps[i];
      var key := KeyOf(e);
      if key !in seen {
        seen := seen + {key};
        var nd := e.(depth := depth);
        if nd.file != r.file {
          r.tpSvcDeps := r.tpSvcDeps + [nd];
          queue, found := queue + [QueueItem(key, depth + 1)], found + [nd];
        }
      }
    }
    assert deps[..|deps|] == deps;
  }

  /** Breadth-first search from one report's direct targets; it never reads the list it is growing,
      because the report's own stem counts as seen from the start. */
  method ExpandClosure(r: Report, ghost reports: seq<Report>, byStem: map<Key, seq<Report>>)
    returns (ghost found: seq<Dep>)
    requires r in reports && r.file != "" && IndexedByStem(reports, byStem)
    requires forall m :: m in reports ==> AllWellResolved(reports, m.tpSvcDeps)
    modifies r`tpSvcDeps, r`tpDepScore, r`tpUnresolved
    ensures SearchResult(reports, old(ListsOf(reports)), r, found)
    ensures multiset(r.tpSvcDeps) == multiset(NotSelf(r, old(r.tpSvcDeps)) + found)
    ensures Ordered(r.tpSvcDeps, DepthThenService)
    ensures r.tpDepScore == ScoreSum(r.tpSvcDeps) && r.tpUnresolved == UnresolvedCount(r.tpSvcDeps)
  {
    ghost var lists, direct, root := ListsOf(reports), r.tpSvcDeps, SvcStem(r.file);
    var seen, queue := SeedQueue(SvcStem(r.file), r.tpSvcDeps);
    found := [];
    SeedAvoids(root, direct);
    while |queue| > 0
      invariant r.tpSvcDeps == direct + found
      invariant Avoids(Search(seen, queue, found), root)
      invariant forall m :: m in reports && m != r ==> m.tpSvcDeps == lists[m]
      invariant Run(reports, lists, r.file, Search(seen, queue, found)) == Run(reports, lists, r.file, Seed(root, direct))
      decreases AllKeys(lists) - seen, |queue|
    {
      ghost var st := Search(seen, queue, found);
      StepShrinks(reports, lists, r.file, st);
      StepAvoids(reports, lists, root, r.file, st);
      var item := queue[0];
      queue := queue[1..];
      MatchesAreReports(reports, item.svc);
      var matches := if item.svc in byStem then byStem[item.svc] else [];
      if |matches| == 1 {
        var next := matches[0];
        assert next == Matches(reports, item.svc)[0];
        assert next in reports && next != r;
        seen, queue, found := ReadList(r, next, item.depth, seen, queue, direct, found);
      }
      assert Search(seen, queue, found) == Step(reports, lists, r.file, st);
    }
    SearchFinds(reports, lists, r);
    FoundIsNotSelf(reports, lists, r, direct, found);
    FinishClosure(r);
  }

  lemma FoundIsNotSelf(reports: seq<Report>, lists: Lists, r: Report, direct: seq<Dep>, found: seq<Dep>)
    requires r in lists && r.file != "" && SearchResult(reports, lists, r, found)
    ensures NotSelf(r, direct + found) == NotSelf(r, direct) + found
  {
    NotSelfSplit(r, direct, found);
    forall e | e in found ensures !(e.resolved && e.file == r.file) {
      assert KeyOf(e) in Keys(found);
      OtherKeyOtherFile(reports, r, e);
    }
    NotSelfKeeps(r, found);
  }

  // ---------------------------------------------------------------- the whole pass

  /** An entry naming the report's own service that could not be resolved to its file. */
  predicate SelfUnresolved(ds: seq<Dep>, root: Key) {
    exists d :: d in ds && KeyOf(d) == root && !d.resolved
  }

  /** The services in the list a report ends with, said from the direct targets of all reports alone. */
  ghost predicate EndsWith(reports: seq<Report>, direct: Lists, r: Report, k: Key)
    requires r in direct
  {
    if k == SvcStem(r.file) then SelfUnresolved(direct[r], k) else Reaches(GraphOf(reports, direct), Keys(direct[r]), k)
  }

  /** The list a report ends with. */
  ghost predicate FinalList(reports: seq<Report>, direct: Lists, r: Report, ds: seq<Dep>)
    requires r in direct
  {
    var g, start := GraphOf(reports, direct), Keys(direct[r]);
    && AllWellResolved(reports, ds)
    && (forall k :: k in Keys(ds) <==> EndsWith(reports, direct, r, k))
    && (forall d :: d in ds && KeyOf(d) in start ==> d.depth == 1)
    && (forall d, n: nat :: d in ds && KeyOf(d) !in start && AtDistance(g, start, KeyOf(d), n) ==> 2 <= d.depth <= n)
  }

  ghost function FinalKeys(reports: seq<Report>, direct: Lists, r: Report): set<Key>
    requires r in direct
  {
    set k | k in AllKeys(direct) && EndsWith(reports, direct, r, k)
  }

  /** The targets a search reads for a service once the first `n` reports are finished. */
  ghost function OrderKeys(reports: seq<Report>, direct: Lists, n: nat, k: Key): set<Key>
    requires n <= |reports|
  {
    var ms := Matches(reports, k);
    if |ms| != 1 || ms[0] !in direct then {}
    else if ms[0] in reports[..n] then FinalKeys(reports, direct, ms[0])
    else Keys(direct[ms[0]])
  }

  /** The graph that the search from report `n` reads: finished lists before it, direct lists from it on. */
  ghost function OrderGraph(reports: seq<Report>, direct: Lists, n: nat): Graph
    requires n <= |reports|
  {
    map k | k in Stems(reports) :: OrderKeys(reports, direct, n, k)
  }

  lemma OrderSucc(reports: seq<Report>, direct: Lists, n: nat, k: Key)
    requires n <= |reports|
    ensures Succ(OrderGraph(reports, direct, n), k) == OrderKeys(reports, direct, n, k)
  {
    hide FinalKeys;
    MatchesAreReports(reports, k);
    if |Matches(reports, k)| == 1 {
      var m := Matches(reports, k)[0];
      assert m in reports;
      assert k in Stems(reports);
    }
  }

  lemma KeysInAll(lists: Lists, r: Report)
    requires r in lists
    ensures Keys(lists[r]) <= AllKeys(lists)
  {
  }

  /** Everything reachable is named in some list. */
  lemma ReachedIsNamed(reports: seq<Report>, direct: Lists, r: Report, k: Key)
    requires r in direct && Reaches(GraphOf(reports, direct), Keys(direct[r]), k)
    ensures k in AllKeys(direct)
  {
    hide AllKeys;
    var g, p := GraphOf(reports, direct), (x: Key) => x in AllKeys(direct);
    KeysInAll(direct, r);
    forall x, y | p(x) && y in Succ(g, x) ensures p(y) {
      SuccOf(reports, direct, x);
      KeysInAll(direct, Matches(reports, x)[0]);
    }
    var n: nat :| k in Within(g, Keys(direct[r]), n);
    ReachInduction(g, Keys(direct[r]), p, n);
  }

  lemma FinalKeysAre(reports: seq<Report>, direct: Lists, r: Report, k: Key)
    requires r in direct
    ensures k in FinalKeys(reports, direct, r) <==> EndsWith(reports, direct, r, k)
  {
    if EndsWith(reports, direct, r, k) {
      if k == SvcStem(r.file) {
        KeysInAll(direct, r);
        var d :| d in direct[r] && KeyOf(d) == k;
        assert k in Keys(direct[r]);
      } else {
        ReachedIsNamed(reports, direct, r, k);
      }
    }
  }

  /** A finished list holds the direct targets, short of a self entry, and nothing unreachable. */
  lemma FinalKeysGrow(reports: seq<Report>, direct: Lists, m: Report)
    requires m in direct
    ensures Keys(direct[m]) <= FinalKeys(reports, direct, m) + {SvcStem(m.file)}
    ensures forall x :: x in FinalKeys(reports, direct, m) ==> Reaches(GraphOf(reports, direct), Keys(direct[m]), x)
  {
    hide FinalKeys, Reaches;
    var g, start := GraphOf(reports, direct), Keys(direct[m]);
    forall x | x in start ensures x in FinalKeys(reports, direct, m) + {SvcStem(m.file)} {
      ReachesClosed(g, start, x, x);
      FinalKeysAre(reports, direct, m, x);
    }
    forall x | x in FinalKeys(reports, direct, m) ensures Reaches(g, start, x) {
      FinalKeysAre(reports, direct, m, x);
      if x == SvcStem(m.file) {
        assert x in start;
        ReachesClosed(g, start, x, x);
      }
    }
  }

  /** Finished lists add shortcuts to the graph of the direct targets and nothing else. */
  lemma OrderIsShortcuts(reports: seq<Report>, direct: Lists, n: nat)
    requires n <= |reports|
    ensures ShortcutsOf(GraphOf(reports, direct), OrderGraph(reports, direct, n))
  {
    hide FinalKeys, Reaches, Succ, GraphOf, OrderGraph;
    var g, g' := GraphOf(reports, direct), OrderGraph(reports, direct, n);
    forall k ensures Succ(g, k) <= Succ(g', k) + {k} && forall x :: x in Succ(g', k) ==> Reaches(g, Succ(g, k), x) {
      SuccOf(reports, direct, k);
      OrderSucc(reports, direct, n, k);
      MatchesAreReports(reports, k);
      forall x | x in Succ(g, k) ensures Reaches(g, Succ(g, k), x) {
        ReachesClosed(g, Succ(g, k), x, x);
      }
      if |Matches(reports, k)| == 1 && Matches(reports, k)[0] in direct {
        FinalKeysGrow(reports, direct, Matches(reports, k)[0]);
      }
    }
  }

  lemma PermutedKeys(a: seq<Dep>, b: seq<Dep>)
    requires multiset(a) == multiset(b)
    ensures forall d :: d in a <==> d in b
    ensures Keys(a) == Keys(b)
  {
    PermutedMembers(a, b);
  }

  /** A self entry survives exactly when it did not resolve to the report's own file. */
  lemma DirectKept(reports: seq<Report>, r: Report, ds: seq<Dep>, k: Key)
    requires r in reports && r.file != "" && AllWellResolved(reports, ds)
    ensures k in Keys(NotSelf(r, ds)) <==>
            k in Keys(ds) && (k == SvcStem(r.file) ==> SelfUnresolved(ds, k))
  {
    NotSelfMembers(r, ds);
    MatchesAreReports(reports, k);
    if k in Keys(ds) && k != SvcStem(r.file) {
      var d :| d in ds && KeyOf(d) == k;
      OtherKeyOtherFile(reports, r, d);
      assert d in NotSelf(r, ds);
    }
    if k in Keys(NotSelf(r, ds)) && k == SvcStem(r.file) {
      var d :| d in NotSelf(r, ds) && KeyOf(d) == k;
      if |Matches(reports, k)| == 1 {
        UniqueSelf(reports, r);
      }
      assert d in ds && !d.resolved;
    }
    if SelfUnresolved(ds, k) {
      var d :| d in ds && KeyOf(d) == k && !d.resolved;
      assert d in NotSelf(r, ds);
    }
  }

  /** Whatever the earlier searches did to the lists, this search ends with the right entries. */
  lemma SearchIsFinal(reports: seq<Report>, direct: Lists, lists: Lists, r: Report, found: seq<Dep>, ds: seq<Dep>)
    requires r in reports && r.file != "" && r in direct && r in lists && lists[r] == direct[r]
    requires Direct(reports, direct[r])
    requires ShortcutsOf(GraphOf(reports, direct), GraphOf(reports, lists))
    requires SearchResult(reports, lists, r, found)
    requires multiset(ds) == multiset(NotSelf(r, direct[r]) + found)
    ensures FinalList(reports, direct, r, ds)
  {
    var g, g', start, root := GraphOf(reports, direct), GraphOf(reports, lists), Keys(direct[r]), SvcStem(r.file);
    var kept := NotSelf(r, direct[r]);
    NotSelfMembers(r, direct[r]);
    PermutedKeys(ds, kept + found);
    forall k ensures k in Keys(ds) <==> EndsWith(reports, direct, r, k) {
      DirectKept(reports, r, direct[r], k);
      ShortcutsKeepReach(g, g', start, k);
      if k in start {
        ReachesClosed(g, start, k, k);
      }
    }
    forall d | d in ds && KeyOf(d) in start ensures d.depth == 1 {
      assert KeyOf(d) !in Keys(found);
    }
    forall d, n: nat | d in ds && KeyOf(d) !in start && AtDistance(g, start, KeyOf(d), n) ensures 2 <= d.depth <= n {
      assert d in found;
      ShortcutsNeverLengthen(g, g', start, KeyOf(d), n, d.depth);
    }
  }

  /** Every entry beyond the direct targets stands at its distance in the graph read from report `i`. */
  ghost predicate DepthsRead(reports: seq<Report>, direct: Lists, i: nat, ds: seq<Dep>)
    requires i < |reports| && reports[i] in direct
  {
    var start := Keys(direct[reports[i]]);
    forall d :: d in ds && KeyOf(d) !in start ==> AtDistance(OrderGraph(reports, direct, i), start, KeyOf(d), d.depth)
  }

  /** Every such entry stands at its true call distance. */
  ghost predicate DepthsTrue(reports: seq<Report>, direct: Lists, r: Report, ds: seq<Dep>)
    requires r in direct
  {
    var start := Keys(direct[r]);
    forall d :: d in ds && KeyOf(d) !in start ==> AtDistance(GraphOf(reports, direct), start, KeyOf(d), d.depth)
  }

  lemma OrderRoot(reports: seq<Report>, direct: Lists, i: nat)
    requires i < |reports| && reports[i] in direct && forall j :: 0 <= j < i ==> reports[j] != reports[i]
    ensures Succ(OrderGraph(reports, direct, i), SvcStem(reports[i].file)) <= Keys(direct[reports[i]])
  {
    hide FinalKeys;
    OrderSucc(reports, direct, i, SvcStem(reports[i].file));
    if |Matches(reports, SvcStem(reports[i].file))| == 1 {
      UniqueSelf(reports, reports[i]);
    }
  }

  /** The depths in a finished list are the true shortest distances exactly when no list finished before it, as far
      as its search follows them, holds a service more than one call beyond the file the list belongs to. */
  lemma DepthsTrueIff(reports: seq<Report>, direct: Lists, i: nat, ds: seq<Dep>)
    requires i < |reports| && reports[i] in direct && forall j :: 0 <= j < i ==> reports[j] != reports[i]
    requires FinalList(reports, direct, reports[i], ds) && DepthsRead(reports, direct, i, ds)
    ensures DepthsTrue(reports, direct, reports[i], ds) <==>
            NoEdgeSkipsALevel(GraphOf(reports, direct), OrderGraph(reports, direct, i), Keys(direct[reports[i]]),
                              SvcStem(reports[i].file))
  {
    hide GraphOf, OrderGraph, Succ, AtDistance, NoEdgeSkipsALevel, AllWellResolved;
    var r := reports[i];
    var g, g', start, root := GraphOf(reports, direct), OrderGraph(reports, direct, i), Keys(direct[r]), SvcStem(r.file);
    OrderIsShortcuts(reports, direct, i);
    OrderRoot(reports, direct, i);
    DistancesSurviveIff(g, g', start, root);
    if DepthsTrue(reports, direct, r, ds) {
      forall x, n: nat | x != root ensures AtDistance(g, start, x, n) <==> AtDistance(g', start, x, n) {
        SameDistanceOf(reports, direct, i, ds, x, n);
      }
    }
    if SameDistances(g, g', start, root) {
      forall d | d in ds && KeyOf(d) !in start ensures AtDistance(g, start, KeyOf(d), d.depth) {
        RootNotBeyond(reports, direct, r, ds, d);
      }
    }
  }

  lemma RootNotBeyond(reports: seq<Report>, direct: Lists, r: Report, ds: seq<Dep>, d: Dep)
    requires r in direct && FinalList(reports, direct, r, ds) && d in ds && KeyOf(d) !in Keys(direct[r])
    ensures KeyOf(d) != SvcStem(r.file)
  {
    assert KeyOf(d) in Keys(ds);
  }

  lemma SameDistanceOf(reports: seq<Report>, direct: Lists, i: nat, ds: seq<Dep>, x: Key, n: nat)
    requires i < |reports| && reports[i] in direct && x != SvcStem(reports[i].file)
    requires ShortcutsOf(GraphOf(reports, direct), OrderGraph(reports, direct, i))
    requires FinalList(reports, direct, reports[i], ds) && DepthsRead(reports, direct, i, ds)
    requires DepthsTrue(reports, direct, reports[i], ds)
    ensures AtDistance(GraphOf(reports, direct), Keys(direct[reports[i]]), x, n) <==>
            AtDistance(OrderGraph(reports, direct, i), Keys(direct[reports[i]]), x, n)
  {
    hide GraphOf, OrderGraph, ShortcutsOf, AllWellResolved;
    var g, g', start := GraphOf(reports, direct), OrderGraph(reports, direct, i), Keys(direct[reports[i]]);
    ShortcutsKeepReach(g, g', start, x);
    if Reaches(g, start, x) {
      var d: nat;
      if x in start {
        assert x in Within(g, start, 1) && x in Within(g', start, 1);
        d := 1;
      } else {
        assert x in Keys(ds);
        var e :| e in ds && KeyOf(e) == x;
        d := e.depth;
      }
      assert AtDistance(g, start, x, d) && AtDistance(g', start, x, d);
      if AtDistance(g, start, x, n) {
        DistanceUnique(g, start, x, n, d);
      }
      if AtDistance(g', start, x, n) {
        DistanceUnique(g', start, x, n, d);
      }
    }
  }

  // ---------------------------------------------------------------- scores

  /** Total own score of the files in `all` whose stem is in `ks` and names no other file. */
  ghost function ReportSum(some: seq<Report>, all: seq<Report>, ks: set<Key>): int {
    if some == [] then 0
    else
      var m := some[|some| - 1];
      ReportSum(some[..|some| - 1], all, ks) +
      if SvcStem(m.file) in ks && Unique(all, SvcStem(m.file)) then m.complexityScore else 0
  }

  ghost function ScoreAll(ms: seq<Report>): int {
    if ms == [] then 0 else ScoreAll(ms[..|ms| - 1]) + ms[|ms| - 1].complexityScore
  }

  lemma {:induction false} ReportSumAdd(some: seq<Report>, all: seq<Report>, ks: set<Key>, k: Key)
    requires k !in ks
    ensures ReportSum(some, all, ks + {k}) ==
            ReportSum(some, all, ks) + if Unique(all, k) then ScoreAll(Matches(some, k)) else 0
  {
    if some != [] {
      var n := |some| - 1;
      ReportSumAdd(some[..n], all, ks, k);
      if SvcStem(some[n].file) == k {
        var ms := Matches(some, k);
        assert ms == Matches(some[..n], k) + [some[n]];
        assert ms[..|ms| - 1] == Matches(some[..n], k) && ms[|ms| - 1] == some[n];
      } else {
        assert Matches(some, k) == Matches(some[..n], k);
      }
    }
  }

  lemma {:induction false} ReportSumAgree(some: seq<Report>, all: seq<Report>, ks: set<Key>, ks': set<Key>)
    requires forall k :: Unique(all, k) ==> (k in ks <==> k in ks')
    ensures ReportSum(some, all, ks) == ReportSum(some, all, ks')
  {
    if some != [] {
      ReportSumAgree(some[..|some| - 1], all, ks, ks');
    }
  }

  lemma {:induction false} ReportSumEmpty(some: seq<Report>, all: seq<Report>)
    ensures ReportSum(some, all, {}) == 0
  {
    if some != [] {
      ReportSumEmpty(some[..|some| - 1], all);
    }
  }

  ghost predicate DistinctKeys(ds: seq<Dep>) {
    forall i, j :: 0 <= i < j < |ds| ==> KeyOf(ds[i]) != KeyOf(ds[j])
  }

  /** No scanned file answers to the name the analyzer gives to non-literal targets. */
  ghost predicate NoDynamicFile(reports: seq<Report>) {
    Matches(reports, ToLower(DYNAMIC)) == []
  }

  /** A list that names no service twice sums each resolved file's own score once. */
  lemma {:induction false} DistinctSum(reports: seq<Report>, ds: seq<Dep>)
    requires AllWellResolved(reports, ds) && DistinctKeys(ds) && NoDynamicFile(reports)
    ensures ScoreSum(ds) == ReportSum(reports, reports, Keys(ds))
  {
    if ds == [] {
      assert Keys(ds) == {};
      ReportSumEmpty(reports, reports);
    } else {
      var n := |ds| - 1;
      assert ds == ds[..n] + [ds[n]];
      DistinctSum(reports, ds[..n]);
      SumsSplit(ds[..n], [ds[n]]);
      KeysPlus(ds[..n], ds[n]);
      var k := KeyOf(ds[n]);
      assert k !in Keys(ds[..n]);
      ReportSumAdd(reports, reports, Keys(ds[..n]), k);
      var ms := Matches(reports, k);
      if |ms| == 1 {
        assert ms[..0] == [];
      }
    }
  }

  /** The part of a report's score that the same service spelled in two cases would count twice. */
  ghost function SpellingSurplus(reports: seq<Report>, r: Report, direct: seq<Dep>): int {
    ScoreSum(NotSelf(r, direct)) - ReportSum(reports, reports, Keys(NotSelf(r, direct)))
  }

  /** The services a report can reach, itself excluded. */
  ghost predicate IsReach(reports: seq<Report>, direct: Lists, r: Report, reach: set<Key>)
    requires r in direct
  {
    forall k :: k in reach <==> Reaches(GraphOf(reports, direct), Keys(direct[r]), k) && k != SvcStem(r.file)
  }

  /** A report's dependency score is the sum over distinct reachable files of their own scores,
      plus whatever its own list counts twice. */
  lemma DepScoreIsReachableSum(reports: seq<Report>, direct: Lists, lists: Lists, r: Report,
                               found: seq<Dep>, ds: seq<Dep>, reach: set<Key>)
    requires r in reports && r.file != "" && r in direct && r in lists && lists[r] == direct[r]
    requires AllWellResolved(reports, direct[r]) && NoDynamicFile(reports)
    requires ShortcutsOf(GraphOf(reports, direct), GraphOf(reports, lists))
    requires SearchResult(reports, lists, r, found)
    requires multiset(ds) == multiset(NotSelf(r, direct[r]) + found)
    requires IsReach(reports, direct, r, reach)
    ensures ScoreSum(ds) == ReportSum(reports, reports, reach) + SpellingSurplus(reports, r, direct[r])
    ensures DistinctKeys(direct[r]) ==> SpellingSurplus(reports, r, direct[r]) == 0
  {
    var kept := NotSelf(r, direct[r]);
    SumsPermute(ds, kept + found);
    SumsSplit(kept, found);
    DistinctSum(reports, found);
    KeptAndFound(reports, direct, lists, r, found, reach);
    SumOfParts(reports, reports, Keys(kept), Keys(found));
    ReportSumAgree(reports, reports, Keys(kept) + Keys(found), reach);
    NotSelfMembers(r, direct[r]);
    if DistinctKeys(direct[r]) {
      NotSelfDistinct(r, direct[r]);
      DistinctSum(reports, kept);
    }
  }

  /** Kept direct entries and found entries never overlap, and together name what is reachable. */
  lemma KeptAndFound(reports: seq<Report>, direct: Lists, lists: Lists, r: Report, found: seq<Dep>, reach: set<Key>)
    requires r in reports && r.file != "" && r in direct && r in lists && lists[r] == direct[r]
    requires AllWellResolved(reports, direct[r]) && NoDynamicFile(reports)
    requires ShortcutsOf(GraphOf(reports, direct), GraphOf(reports, lists))
    requires SearchResult(reports, lists, r, found)
    requires IsReach(reports, direct, r, reach)
    ensures Keys(NotSelf(r, direct[r])) !! Keys(found)
    ensures forall k :: Unique(reports, k) ==> (k in Keys(NotSelf(r, direct[r])) + Keys(found) <==> k in reach)
  {
    var g, g', start, kept := GraphOf(reports, direct), GraphOf(reports, lists), Keys(direct[r]), NotSelf(r, direct[r]);
    forall k ensures k in Keys(kept) ==> k !in Keys(found) {
      DirectKept(reports, r, direct[r], k);
    }
    forall k | Unique(reports, k) ensures k in Keys(kept) + Keys(found) <==> k in reach {
      DirectKept(reports, r, direct[r], k);
      ShortcutsKeepReach(g, g', start, k);
      if k in start {
        ReachesClosed(g, start, k, k);
      }
      if k == SvcStem(r.file) {
        SelfResolved(reports, r, direct[r]);
      }
    }
  }

  lemma {:induction false} SumOfParts(some: seq<Report>, all: seq<Report>, ks: set<Key>, ks': set<Key>)
    requires ks !! ks'
    ensures ReportSum(some, all, ks + ks') == ReportSum(some, all, ks) + ReportSum(some, all, ks')
  {
    if some != [] {
      SumOfParts(some[..|some| - 1], all, ks, ks');
    }
  }

  lemma {:induction false} NotSelfDistinct(r: Report, ds: seq<Dep>)
    requires DistinctKeys(ds)
    ensures DistinctKeys(NotSelf(r, ds))
  {
    if ds != [] {
      NotSelfDistinct(r, ds[1..]);
      NotSelfMembers(r, ds[1..]);
      var rest := NotSelf(r, ds[1..]);
      forall i | 0 <= i < |rest| ensures KeyOf(ds[0]) != KeyOf(rest[i]) {
        assert rest[i] in rest;
        var j :| 0 <= j < |ds[1..]| && ds[1..][j] == rest[i];
        assert ds[j + 1] == rest[i];
      }
    }
  }

  lemma SelfResolved(reports: seq<Report>, r: Report, ds: seq<Dep>)
    requires AllWellResolved(reports, ds) && NoDynamicFile(reports) && Unique(reports, SvcStem(r.file))
    ensures !SelfUnresolved(ds, SvcStem(r.file))
  {
  }

  // ---------------------------------------------------------------- the pass over all reports

  /** File name to report; a later report of the same name wins. */
  function LastByFile(reports: seq<Report>): map<string, Report> {
    if reports == [] then map[]
    else LastByFile(reports[..|reports| - 1])[reports[|reports| - 1].file := reports[|reports| - 1]]
  }

  method IndexByFile(reports: seq<Report>) returns (byFile: map<string, Report>)
    ensures byFile == LastByFile(reports)
  {
    byFile := map[];
    for i := 0 to |reports|
      invariant byFile == LastByFile(reports[..i])
    {
      assert reports[..i + 1][..i] == reports[..i];
      byFile := byFile[reports[i].file := reports[i]];
    }
    assert reports[..|reports|] == reports;
  }

  method IndexByStem(reports: seq<Report>) returns (byStem: map<Key, seq<Report>>)
    ensures IndexedByStem(reports, byStem)
  {
    byStem := map[];
    for i := 0 to |reports|
      invariant IndexedByStem(reports[..i], byStem)
    {
      assert reports[..i + 1][..i] == reports[..i];
      var stem := SvcStem(reports[i].file);
      byStem := byStem[stem := (if stem in byStem then byStem[stem] else []) + [reports[i]]];
    }
    assert reports[..|reports|] == reports;
  }

  /** The direct list of a report after resolution against the tree. */
  function Resolve(reports: seq<Report>, ds: seq<Dep>): (r: seq<Dep>)
    ensures |r| == |ds| && forall i :: 0 <= i < |ds| ==> r[i] == ResolvedDep(reports, ds[i].(depth := 1))
  {
    seq(|ds|, i requires 0 <= i < |ds| => ResolvedDep(reports, ds[i].(depth := 1)))
  }

  lemma ResolveIsDirect(reports: seq<Report>, ds: seq<Dep>)
    requires forall d :: d in ds ==> Skeleton(d)
    ensures Direct(reports, Resolve(reports, ds)) && Keys(Resolve(reports, ds)) == Keys(ds)
  {
    var rs := Resolve(reports, ds);
    forall d | d in rs ensures WellResolved(reports, d) && d.depth == 1 && KeyOf(d) in Keys(ds) {
      var i :| 0 <= i < |rs| && rs[i] == d;
      assert ds[i] in ds && KeyOf(rs[i]) == KeyOf(ds[i]);
    }
    forall k | k in Keys(ds) ensures k in Keys(rs) {
      var i :| 0 <= i < |ds| && KeyOf(ds[i]) == k;
      assert rs[i] in rs && KeyOf(rs[i]) == k;
    }
  }

  /** Fills the resolution half of one report's direct entries. */
  method ResolveDirect(r: Report, ghost reports: seq<Report>, byStem: map<Key, seq<Report>>)
    requires IndexedByStem(reports, byStem)
    modifies r`tpSvcDeps
    ensures r.tpSvcDeps == Resolve(reports, old(r.tpSvcDeps))
  {
    var deps := r.tpSvcDeps;
    for i := 0 to |deps|
      invariant |deps| == |old(r.tpSvcDeps)|
      invariant forall j :: 0 <= j < i ==> deps[j] == Resolve(reports, old(r.tpSvcDeps))[j]
      invariant forall j :: i <= j < |deps| ==> deps[j] == old(r.tpSvcDeps)[j]
    {
      var d := deps[i].(depth := 1);
      if d.service != DYNAMIC {
        var key := KeyOf(d);
        assert Matches(reports, key) == if key in byStem then byStem[key] else [];
        var matches := if key in byStem then byStem[key] else [];
        if |matches| == 1 {
          d := d.(file := matches[0].file, resolved := true,
                  score := matches[0].complexityScore, complexity := matches[0].complexity);
        }
      }
      deps := deps[i := d];
    }
    r.tpSvcDeps := deps;
  }

  /** The list is the direct one without self entries, each as often as it was there, and `found` beside it: services
      that are no direct targets, each once. */
  ghost predicate FoundBeside(r: Report, direct: seq<Dep>, found: seq<Dep>, ds: seq<Dep>) {
    && multiset(ds) == multiset(NotSelf(r, direct) + found)
    && DistinctKeys(found) && Keys(found) !! Keys(direct)
  }

  /** What the pass leaves in report `i`. */
  ghost predicate Finished(reports: seq<Report>, direct: Lists, byFile: map<string, Report>, i: nat)
    requires i < |reports| && reports[i] in direct
    reads reports[i]
  {
    var r := reports[i];
    && FinalList(reports, direct, r, r.tpSvcDeps) && DepthsRead(reports, direct, i, r.tpSvcDeps)
    && (exists found :: FoundBeside(r, direct[r], found, r.tpSvcDeps))
    && Ordered(r.tpSvcDeps, DepthThenService)
    && r.tpDepScore == ScoreSum(r.tpSvcDeps) && r.tpUnresolved == UnresolvedCount(r.tpSvcDeps)
    && Rolled(r.file, byFile, r.externalFns, r.fnFileDeps) && r.fnDepScore == FileScoreSum(r.fnFileDeps)
    && r.tpTotalScore == r.complexityScore + r.tpDepScore + r.fnDepScore
    && (NoDynamicFile(reports) ==> ScoredByReach(reports, direct, r, r.tpDepScore))
  }

  /** The score is the sum of the own scores of the distinct reachable files, up to double spellings. */
  ghost predicate ScoredByReach(reports: seq<Report>, direct: Lists, r: Report, score: int)
    requires r in direct
  {
    forall reach :: IsReach(reports, direct, r, reach) ==>
      score == ReportSum(reports, reports, reach) + SpellingSurplus(reports, r, direct[r])
  }

  ghost function DirectLists(reports: seq<Report>, skeletons: Lists): Lists
    requires forall r :: r in reports ==> r in skeletons
  {
    map r | r in reports :: Resolve(reports, skeletons[r])
  }

  /** Loop state of the second pass: the first `n` reports are finished, the rest still hold direct lists. */
  ghost predicate PassedTo(reports: seq<Report>, direct: Lists, byFile: map<string, Report>, n: nat)
    requires n <= |reports| && forall i :: 0 <= i < |reports| ==> reports[i] in direct
    reads reports
  {
    && (forall i :: 0 <= i < n ==> Finished(reports, direct, byFile, i))
    && (forall i :: n <= i < |reports| ==> reports[i].tpSvcDeps == direct[reports[i]])
  }

  lemma PassReads(reports: seq<Report>, direct: Lists, byFile: map<string, Report>, n: nat, k: Key)
    requires n <= |reports| && forall i :: 0 <= i < |reports| ==> reports[i] in direct
    requires PassedTo(reports, direct, byFile, n)
    ensures NextKeys(reports, ListsOf(reports), k) == OrderKeys(reports, direct, n, k)
  {
    hide FinalKeys;
    MatchesAreReports(reports, k);
    if |Matches(reports, k)| == 1 {
      var m := Matches(reports, k)[0];
      assert m in reports;
      if m in reports[..n] {
        var j :| 0 <= j < n && reports[j] == m;
        FinishedKeys(reports, direct, byFile, j);
      } else {
        var j :| 0 <= j < |reports| && reports[j] == m;
        assert j < n ==> m == reports[..n][j];
      }
    }
  }

  lemma FinishedKeys(reports: seq<Report>, direct: Lists, byFile: map<string, Report>, j: nat)
    requires j < |reports| && reports[j] in direct && Finished(reports, direct, byFile, j)
    ensures Keys(reports[j].tpSvcDeps) == FinalKeys(reports, direct, reports[j])
  {
    hide FinalKeys, EndsWith;
    forall k ensures k in Keys(reports[j].tpSvcDeps) <==> k in FinalKeys(reports, direct, reports[j]) {
      FinalKeysAre(reports, direct, reports[j], k);
    }
  }

  /** The lists as they stand when report `n` is reached are the finished ones and the direct ones. */
  lemma PassGraph(reports: seq<Report>, direct: Lists, byFile: map<string, Report>, n: nat)
    requires n <= |reports| && forall i :: 0 <= i < |reports| ==> reports[i] in direct
    requires PassedTo(reports, direct, byFile, n)
    ensures GraphOf(reports, ListsOf(reports)) == OrderGraph(reports, direct, n)
  {
    hide NextKeys, OrderKeys, PassedTo;
    forall k | k in Stems(reports) ensures NextKeys(reports, ListsOf(reports), k) == OrderKeys(reports, direct, n, k) {
      PassReads(reports, direct, byFile, n, k);
    }
  }

  lemma ScoreForEveryReach(reports: seq<Report>, direct: Lists, lists: Lists, r: Report, found: seq<Dep>, ds: seq<Dep>)
    requires r in reports && r.file != "" && r in direct && r in lists && lists[r] == direct[r]
    requires AllWellResolved(reports, direct[r])
    requires ShortcutsOf(GraphOf(reports, direct), GraphOf(reports, lists))
    requires SearchResult(reports, lists, r, found)
    requires multiset(ds) == multiset(NotSelf(r, direct[r]) + found)
    ensures NoDynamicFile(reports) ==> ScoredByReach(reports, direct, r, ScoreSum(ds))
  {
    if NoDynamicFile(reports) {
      forall reach | IsReach(reports, direct, r, reach)
        ensures ScoreSum(ds) == ReportSum(reports, reports, reach) + SpellingSurplus(reports, r, direct[r])
      {
        DepScoreIsReachableSum(reports, direct, lists, r, found, ds, reach);
      }
    }
  }

  // ---------------------------------------------------------------- external function files

  /** Defining files of the resolved external functions, the report's own file excluded. */
  function FnFiles(own: string, byFile: map<string, Report>, fns: seq<CalledFn>): set<string> {
    set fn | fn in fns && Counted(own, byFile, fn) :: fn.definedIn
  }

  function NamesIn(fns: seq<CalledFn>, file: string): seq<string> {
    if fns == [] then []
    else
      var last := fns[|fns| - 1];
      NamesIn(fns[..|fns| - 1], file) + if last.resolved && last.definedIn == file then [last.name] else []
  }

  function FileScoreSum(ds: seq<FnFileDep>): int {
    if ds == [] then 0 else FileScoreSum(ds[..|ds| - 1]) + ds[|ds| - 1].score
  }

  /** One entry per defining file, in file order, each naming that file's functions in order. */
  ghost predicate Rolled(own: string, byFile: map<string, Report>, fns: seq<CalledFn>, ds: seq<FnFileDep>) {
    && Ordered(ds, ByFile)
    && Files(ds) == FnFiles(own, byFile, fns) && AllPriced(byFile, fns, ds)
  }

  predicate ByFile(a: FnFileDep, b: FnFileDep) {
    StringLess(a.file, b.file)
  }

  lemma FileOrdersAsymmetric()
    ensures Asymmetric(ByFile) && Asymmetric(StringLess)
  {
    forall a, b ensures !(StringLess(a, b) && StringLess(b, a)) {
      StringLessAsymmetric(a, b);
    }
  }

  /** Groups the functions by defining file. */
  method GroupByFile(own: string, byFile: map<string, Report>, fns: seq<CalledFn>) returns (groups: map<string, seq<string>>)
    ensures groups.Keys == FnFiles(own, byFile, fns)
    ensures forall f :: f in groups ==> groups[f] == NamesIn(fns, f)
  {
    hide FnFiles, NamesIn;
    groups := map[];
    NoFns(own, byFile, fns);
    for i := 0 to |fns|
      invariant groups.Keys == FnFiles(own, byFile, fns[..i])
      invariant forall f :: f in groups ==> groups[f] == NamesIn(fns[..i], f)
    {
      var fn := fns[i];
      FnFilesNext(own, byFile, fns, i);
      FnFilesAre(own, byFile, fns[..i]);
      forall f ensures NamesIn(fns[..i + 1], f) == NamesIn(fns[..i], f) + if fn.resolved && fn.definedIn == f then [fn.name] else [] {
        NamesNext(fns, i, f);
      }
      if fn.resolved && fn.definedIn != "" && fn.definedIn != own && fn.definedIn in byFile {
        if fn.definedIn !in groups {
          NamesFirst(own, byFile, fns[..i], fn.definedIn);
        }
        groups := groups[fn.definedIn := (if fn.definedIn in groups then groups[fn.definedIn] else []) + [fn.name]];
      }
    }
    assert fns[..|fns|] == fns;
  }

  /** A resolved function with a known defining file other than the report's own. */
  predicate Counted(own: string, byFile: map<string, Report>, fn: CalledFn) {
    fn.resolved && fn.definedIn != "" && fn.definedIn != own && fn.definedIn in byFile
  }

  lemma NoFns(own: string, byFile: map<string, Report>, fns: seq<CalledFn>)
    ensures FnFiles(own, byFile, fns[..0]) == {}
  {
  }

  lemma FnFilesAre(own: string, byFile: map<string, Report>, fns: seq<CalledFn>)
    ensures forall f :: f in FnFiles(own, byFile, fns) ==> f != "" && f != own && f in byFile
  {
  }

  lemma FnFilesNext(own: string, byFile: map<string, Report>, fns: seq<CalledFn>, i: nat)
    requires i < |fns|
    ensures FnFiles(own, byFile, fns[..i + 1]) ==
            FnFiles(own, byFile, fns[..i]) + if Counted(own, byFile, fns[i]) then {fns[i].definedIn} else {}
  {
    hide Counted;
    assert fns[..i + 1] == fns[..i] + [fns[i]];
    assert forall fn :: fn in fns[..i + 1] <==> fn in fns[..i] || fn == fns[i];
  }

  lemma NamesNext(fns: seq<CalledFn>, i: nat, f: string)
    requires i < |fns|
    ensures NamesIn(fns[..i + 1], f) ==
            NamesIn(fns[..i], f) + if fns[i].resolved && fns[i].definedIn == f then [fns[i].name] else []
  {
    assert fns[..i + 1][..i] == fns[..i];
  }

  lemma {:induction false} NamesFirst(own: string, byFile: map<string, Report>, fns: seq<CalledFn>, file: string)
    requires file != "" && file != own && file in byFile && file !in FnFiles(own, byFile, fns)
    ensures NamesIn(fns, file) == []
  {
    if fns != [] {
      var n := |fns| - 1;
      assert fns == fns[..n] + [fns[n]];
      NamesFirst(own, byFile, fns[..n], file);
    }
  }

  function Files(ds: seq<FnFileDep>): set<string> {
    set d | d in ds :: d.file
  }

  lemma FilesPlus(ds: seq<FnFileDep>, d: FnFileDep)
    ensures Files(ds + [d]) == Files(ds) + {d.file}
  {
    assert (ds + [d])[|ds|] == d;
    forall e | e in ds ensures e in ds + [d] {
    }
  }

  ghost predicate DistinctFiles(ds: seq<FnFileDep>) {
    forall i, j :: 0 <= i < j < |ds| ==> ds[i].file != ds[j].file
  }

  ghost predicate AllPriced(byFile: map<string, Report>, fns: seq<CalledFn>, ds: seq<FnFileDep>) {
    DistinctFiles(ds) && forall d :: d in ds ==> Priced(byFile, fns, d)
  }

  lemma AddFile(byFile: map<string, Report>, fns: seq<CalledFn>, ds: seq<FnFileDep>, d: FnFileDep)
    requires AllPriced(byFile, fns, ds) && Priced(byFile, fns, d) && d.file !in Files(ds)
    ensures AllPriced(byFile, fns, ds + [d]) && Files(ds + [d]) == Files(ds) + {d.file}
  {
    FilesPlus(ds, d);
    forall i | 0 <= i < |ds| ensures ds[i].file != d.file {
      assert ds[i] in ds;
      assert ds[i].file in Files(ds);
    }
  }

  lemma NothingPriced(byFile: map<string, Report>, fns: seq<CalledFn>)
    ensures AllPriced(byFile, fns, []) && Files([]) == {}
  {
  }

  /** Prices one group; the map's iteration order is left open. */
  method PriceFiles(groups: map<string, seq<string>>, byFile: map<string, Report>, ghost fns: seq<CalledFn>)
    returns (deps: seq<FnFileDep>)
    requires groups.Keys <= byFile.Keys && forall f :: f in groups ==> groups[f] == NamesIn(fns, f)
    ensures Files(deps) == groups.Keys && AllPriced(byFile, fns, deps)
  {
    FileOrdersAsymmetric();
    var files := groups.Keys;
    deps := [];
    NothingPriced(byFile, fns);
    hide AllPriced, Files, NamesIn;
    while files != {}
      invariant files <= groups.Keys && Files(deps) == groups.Keys - files
      invariant AllPriced(byFile, fns, deps)
      decreases |files|
    {
      var f :| f in files;
      var names := SortSlice(groups[f], StringLess);
      var d := FnFileDep(f, names, byFile[f].complexityScore, byFile[f].complexity);
      AddFile(byFile, fns, deps, d);
      files, deps := files - {f}, deps + [d];
    }
  }

  /** Prices the bodies behind the external functions: one own score per defining file. */
  method RollFnFiles(r: Report, byFile: map<string, Report>)
    modifies r`fnFileDeps, r`fnDepScore
    ensures Rolled(r.file, byFile, r.externalFns, r.fnFileDeps)
    ensures r.fnDepScore == FileScoreSum(r.fnFileDeps)
  {
    var groups := GroupByFile(r.file, byFile, r.externalFns);
    var deps := PriceFiles(groups, byFile, r.externalFns);
    FileOrdersAsymmetric();
    hide AllPriced, Files, FnFiles, NamesIn, ByFile, FileScoreSum;
    var sorted := SortSlice(deps, ByFile);
    SortedStaysPriced(byFile, r.externalFns, deps, sorted);
    var score := 0;
    NothingSummed(sorted);
    for i := 0 to |sorted|
      invariant score == FileScoreSum(sorted[..i])
    {
      SummedNext(sorted, i);
      score := score + sorted[i].score;
    }
    assert sorted[..|sorted|] == sorted;
    r.fnFileDeps, r.fnDepScore := sorted, score;
  }

  lemma NothingSummed(ds: seq<FnFileDep>)
    ensures FileScoreSum(ds[..0]) == 0
  {
  }

  lemma SummedNext(ds: seq<FnFileDep>, i: nat)
    requires i < |ds|
    ensures FileScoreSum(ds[..i + 1]) == FileScoreSum(ds[..i]) + ds[i].score
  {
    assert ds[..i + 1][..i] == ds[..i];
  }

  lemma SortedStaysPriced(byFile: map<string, Report>, fns: seq<CalledFn>, ds: seq<FnFileDep>, sorted: seq<FnFileDep>)
    requires AllPriced(byFile, fns, ds) && multiset(sorted) == multiset(ds)
    ensures AllPriced(byFile, fns, sorted) && Files(sorted) == Files(ds)
  {
    hide Priced, Files, DistinctFiles;
    SortedStaysDistinct(ds, sorted);
  }

  ghost predicate Priced(byFile: map<string, Report>, fns: seq<CalledFn>, d: FnFileDep) {
    && d.file in byFile && d.score == byFile[d.file].complexityScore && d.complexity == byFile[d.file].complexity
    && multiset(d.fns) == multiset(NamesIn(fns, d.file)) && Ordered(d.fns, StringLess)
  }

  lemma SortedStaysDistinct(ds: seq<FnFileDep>, sorted: seq<FnFileDep>)
    requires DistinctFiles(ds) && multiset(sorted) == multiset(ds)
    ensures DistinctFiles(sorted) && Files(sorted) == Files(ds)
    ensures forall d :: d in sorted <==> d in ds
  {
    PermutedMembers(ds, sorted);
    forall i, j | 0 <= i < j < |sorted| ensures sorted[i].file != sorted[j].file {
      assert sorted[i] in ds && sorted[j] in ds;
      if sorted[i] == sorted[j] {
        TwiceInMultiset(sorted, i, j);
        OnceInMultiset(ds, sorted[i]);
      } else {
        var a :| 0 <= a < |ds| && ds[a] == sorted[i];
        var b :| 0 <= b < |ds| && ds[b] == sorted[j];
      }
    }
  }

  lemma TwiceInMultiset<T>(s: seq<T>, i: nat, j: nat)
    requires i < j < |s| && s[i] == s[j]
    ensures multiset(s)[s[i]] >= 2
  {
    assert s == s[..i] + [s[i]] + s[i + 1..j] + [s[j]] + s[j + 1..];
  }

  lemma {:induction false} OnceInMultiset(ds: seq<FnFileDep>, d: FnFileDep)
    requires DistinctFiles(ds)
    ensures multiset(ds)[d] <= 1
  {
    if ds != [] {
      var n := |ds| - 1;
      OnceInMultiset(ds[..n], d);
      assert ds == ds[..n] + [ds[n]];
      if ds[n] == d {
        assert d !in ds[..n];
        assert d !in multiset(ds[..n]);
      }
    }
  }

  /** What a search over the lists as they stood leaves in report `i`. */
  lemma SearchFinishes(reports: seq<Report>, direct: Lists, lists: Lists, i: nat, found: seq<Dep>, ds: seq<Dep>)
    requires i < |reports| && reports[i] in direct && reports[i] in lists
    requires reports[i].file != "" && lists[reports[i]] == direct[reports[i]] && Direct(reports, direct[reports[i]])
    requires GraphOf(reports, lists) == OrderGraph(reports, direct, i)
    requires SearchResult(reports, lists, reports[i], found)
    requires multiset(ds) == multiset(NotSelf(reports[i], direct[reports[i]]) + found)
    ensures FinalList(reports, direct, reports[i], ds) && DepthsRead(reports, direct, i, ds)
    ensures FoundBeside(reports[i], direct[reports[i]], found, ds)
    ensures NoDynamicFile(reports) ==> ScoredByReach(reports, direct, reports[i], ScoreSum(ds))
  {
    hide GraphOf, OrderGraph, ShortcutsOf, FinalList, NoDynamicFile, ScoredByReach, AtDistance, Reaches;
    var r := reports[i];
    OrderIsShortcuts(reports, direct, i);
    SearchIsFinal(reports, direct, lists, r, found, ds);
    ScoreForEveryReach(reports, direct, lists, r, found, ds);
    NotSelfMembers(r, direct[r]);
    PermutedKeys(ds, NotSelf(r, direct[r]) + found);
    forall d | d in ds && KeyOf(d) !in Keys(direct[r])
      ensures AtDistance(OrderGraph(reports, direct, i), Keys(direct[r]), KeyOf(d), d.depth)
    {
      assert d in found;
    }
  }

  /** One turn of the second pass. */
  method FinishReport(r: Report, ghost i: nat, ghost reports: seq<Report>, ghost direct: Lists,
                      byFile: map<string, Report>, byStem: map<Key, seq<Report>>)
    requires i < |reports| && r == reports[i] && r.file != "" && r in direct
    requires r.tpSvcDeps == direct[r] && Direct(reports, direct[r])
    requires forall m :: m in reports ==> AllWellResolved(reports, m.tpSvcDeps)
    requires IndexedByStem(reports, byStem)
    requires GraphOf(reports, ListsOf(reports)) == OrderGraph(reports, direct, i)
    modifies r
    ensures Finished(reports, direct, byFile, i)
  {
    hide FinalList, DepthsRead, Rolled, ScoredByReach, NoDynamicFile, SearchResult, GraphOf, OrderGraph, AllWellResolved,
         Direct, IndexedByStem, NotSelf, FoundBeside;
    ghost var lists := ListsOf(reports);
    ghost var found := ExpandClosure(r, reports, byStem);
    SearchFinishes(reports, direct, lists, i, found, r.tpSvcDeps);
    assert FoundBeside(r, direct[r], found, r.tpSvcDeps);
    RollFnFiles(r, byFile);
    r.tpTotalScore := r.complexityScore + r.tpDepScore + r.fnDepScore;
  }

  /** The first pass: every direct entry is matched to a file. */
  method ResolveAll(reports: seq<Report>, byStem: map<Key, seq<Report>>)
    requires IndexedByStem(reports, byStem)
    requires forall i, j :: 0 <= i < j < |reports| ==> reports[i] != reports[j]
    modifies reports
    ensures forall i :: 0 <= i < |reports| ==> reports[i].tpSvcDeps == Resolve(reports, old(reports[i].tpSvcDeps))
  {
    for i := 0 to |reports|
      invariant forall j :: 0 <= j < i ==> reports[j].tpSvcDeps == Resolve(reports, old(reports[j].tpSvcDeps))
      invariant forall j :: i <= j < |reports| ==> reports[j].tpSvcDeps == old(reports[j].tpSvcDeps)
    {
      ResolveDirect(reports[i], reports, byStem);
    }
  }

  /** The second pass: every report is expanded and priced, in order, over lists that keep growing. */
  method ExpandAll(reports: seq<Report>, ghost direct: Lists, byFile: map<string, Report>, byStem: map<Key, seq<Report>>)
    requires IndexedByStem(reports, byStem)
    requires forall i, j :: 0 <= i < j < |reports| ==> reports[i] != reports[j]
    requires forall i :: 0 <= i < |reports| ==> reports[i].file != "" && reports[i] in direct && Direct(reports, direct[reports[i]])
    requires forall i :: 0 <= i < |reports| ==> reports[i].tpSvcDeps == direct[reports[i]]
    modifies reports
    ensures forall i :: 0 <= i < |reports| ==> Finished(reports, direct, byFile, i)
  {
    hide Finished;
    for i := 0 to |reports|
      invariant PassedTo(reports, direct, byFile, i)
    {
      PassGraph(reports, direct, byFile, i);
      PassWellResolved(reports, direct, byFile, i);
      label turn:
      FinishReport(reports[i], i, reports, direct, byFile, byStem);
      forall j | 0 <= j < i ensures Finished(reports, direct, byFile, j) {
        assert old@turn(Finished(reports, direct, byFile, j)) && reports[j] != reports[i];
      }
    }
  }

  lemma PassWellResolved(reports: seq<Report>, direct: Lists, byFile: map<string, Report>, n: nat)
    requires n <= |reports| && forall i :: 0 <= i < |reports| ==> reports[i] in direct && Direct(reports, direct[reports[i]])
    requires PassedTo(reports, direct, byFile, n)
    ensures forall m :: m in reports ==> AllWellResolved(reports, m.tpSvcDeps)
  {
    forall m | m in reports ensures AllWellResolved(reports, m.tpSvcDeps) {
      var j :| 0 <= j < |reports| && reports[j] == m;
      if j < n {
        assert Finished(reports, direct, byFile, j);
      }
    }
  }

  method ResolveTpDeps(reports: seq<Report>)
    requires forall i, j :: 0 <= i < j < |reports| ==> reports[i] != reports[j]
    requires forall r :: r in reports ==> r.file != "" && forall d :: d in r.tpSvcDeps ==> Skeleton(d)
    modifies reports
    ensures forall i :: 0 <= i < |reports| ==>
              Finished(reports, DirectLists(reports, old(ListsOf(reports))), LastByFile(reports), i)
  {
    ghost var skeletons := ListsOf(reports);
    ghost var direct := DirectLists(reports, skeletons);
    forall i | 0 <= i < |reports| ensures Direct(reports, direct[reports[i]]) {
      ResolveIsDirect(reports, skeletons[reports[i]]);
    }
    var byFile := IndexByFile(reports);
    var byStem := IndexByStem(reports);
    ResolveAll(reports, byStem);
    ExpandAll(reports, direct, byFile, byStem);
  }

  // ---------------------------------------------------------------- an order that loses a depth

  /** The file of `b` comes before the one of `a` in the reports. */
  lemma OrderShortens(reports: seq<Report>, direct: Lists, byFile: map<string, Report>, a: Key, b: Key, c: Key, d: Key)
    requires a != b && a != c && a != d && b != c && b != d && c != d
    requires |reports| == 4 && forall i :: 0 <= i < 4 ==> reports[i] in direct
    requires SvcStem(reports[0].file) == b && SvcStem(reports[1].file) == a
    requires SvcStem(reports[2].file) == c && SvcStem(reports[3].file) == d
    requires Keys(direct[reports[0]]) == {c} && Keys(direct[reports[1]]) == {b} && Keys(direct[reports[2]]) == {d}
    requires Finished(reports, direct, byFile, 1)
    ensures exists e :: e in reports[1].tpSvcDeps && KeyOf(e) == d && e.depth == 2
    ensures AtDistance(GraphOf(reports, direct), {b}, d, 3)
  {
    var g, g' := GraphOf(reports, direct), OrderGraph(reports, direct, 1);
    FourMatches(reports, a, b, c, d);
    SuccOf(reports, direct, b);
    SuccOf(reports, direct, c);
    OrderSucc(reports, direct, 1, b);
    assert reports[0] in reports[..1] by { assert reports[..1][0] == reports[0]; }
    hide SvcStem, Matches, GraphOf, OrderGraph, AllWellResolved, FinalKeys;
    assert Reaches(g, {c}, d) by {
      ReachesClosed(g, {c}, c, c);
      ReachesClosed(g, {c}, c, d);
    }
    FinalKeysAre(reports, direct, reports[0], d);
    ShortcutShortensDepth(g, g', b, c, d);
    var ds := reports[1].tpSvcDeps;
    assert Reaches(g, {b}, d) && EndsWith(reports, direct, reports[1], d);
    var e :| e in ds && KeyOf(e) == d;
    DistanceUnique(g', {b}, d, e.depth, 2);
    DistanceUnique(g', {b}, d, 2, e.depth);
  }

  lemma FourMatches(reports: seq<Report>, a: Key, b: Key, c: Key, d: Key)
    requires a != b && a != c && a != d && b != c && b != d && c != d
    requires |reports| == 4
    requires SvcStem(reports[0].file) == b && SvcStem(reports[1].file) == a
    requires SvcStem(reports[2].file) == c && SvcStem(reports[3].file) == d
    ensures Matches(reports, b) == [reports[0]] && Matches(reports, c) == [reports[2]]
  {
    hide SvcStem;
    var one, two, three := reports[..1], reports[..2], reports[..3];
    assert one[..0] == [] && two[..1] == one && three[..2] == two && reports[..3] == three;
    assert Matches(one, b) == [reports[0]] && Matches(one, c) == [];
    assert Matches(two, b) == [reports[0]] && Matches(two, c) == [];
    assert Matches(three, b) == [reports[0]] && Matches(three, c) == [reports[2]];
  }

  function Call(service: string): Dep {
    Dep(service, "tpcall", 1, 1, "", false, 0, "")
  }

  lemma OneCall(reports: seq<Report>, ds: seq<Dep>, service: string)
    requires ds == [Call(service)] && ToLower(service) == service
    ensures Keys(Resolve(reports, ds)) == {service}
  {
    var rs := Resolve(reports, ds);
    assert rs == [ResolvedDep(reports, ds[0].(depth := 1))];
    assert KeyOf(rs[0]) == service;
    assert rs[0] in rs;
  }

  lemma {:induction false} StemsAreLower(file: string)
    ensures ToLower(SvcStem(file)) == SvcStem(file)
  {
    hide Base, DropExt;
  }

  ghost predicate FourStems(a: Key, b: Key, c: Key, d: Key) {
    a != b && a != c && a != d && b != c && b != d && c != d
  }

  /** File `a` calls `b`, `b` calls `c`, `c` calls `d`. With the report of `b` first, the pass leaves `d` in the list
      of `a` at depth two, although three calls are needed. */
  method ShortenedDepth(a: Report, b: Report, c: Report, d: Report)
    requires a.file != "" && b.file != "" && c.file != "" && d.file != ""
    requires FourStems(SvcStem(a.file), SvcStem(b.file), SvcStem(c.file), SvcStem(d.file))
    requires a.tpSvcDeps == [Call(SvcStem(b.file))] && b.tpSvcDeps == [Call(SvcStem(c.file))]
    requires c.tpSvcDeps == [Call(SvcStem(d.file))] && d.tpSvcDeps == []
    modifies a, b, c, d
    ensures exists e :: e in a.tpSvcDeps && KeyOf(e) == SvcStem(d.file) && e.depth == 2
    ensures var reports := [b, a, c, d];
            AtDistance(GraphOf(reports, DirectLists(reports, old(ListsOf(reports)))), {SvcStem(b.file)}, SvcStem(d.file), 3)
  {
    hide SvcStem;
    var reports := [b, a, c, d];
    ghost var skeletons := ListsOf(reports);
    assert b in reports && a in reports && c in reports && d in reports;
    ChainLists(reports, skeletons);
    ResolveTpDeps(reports);
    hide Finished, GraphOf, Keys, LastByFile, AtDistance, DirectLists, KeyOf, Skeleton, ListsOf;
    OrderShortens(reports, DirectLists(reports, skeletons), LastByFile(reports),
                  SvcStem(a.file), SvcStem(b.file), SvcStem(c.file), SvcStem(d.file));
  }

  lemma ChainLists(reports: seq<Report>, skeletons: Lists)
    requires |reports| == 4 && forall r :: r in reports ==> r in skeletons
    requires skeletons[reports[0]] == [Call(SvcStem(reports[2].file))]
    requires skeletons[reports[1]] == [Call(SvcStem(reports[0].file))]
    requires skeletons[reports[2]] == [Call(SvcStem(reports[3].file))]
    ensures var direct := DirectLists(reports, skeletons);
            && (forall i :: 0 <= i < 4 ==> reports[i] in direct)
            && Keys(direct[reports[0]]) == {SvcStem(reports[2].file)} && Keys(direct[reports[1]]) == {SvcStem(reports[0].file)}
            && Keys(direct[reports[2]]) == {SvcStem(reports[3].file)}
  {
    StemsAreLower(reports[0].file);
    StemsAreLower(reports[2].file);
    StemsAreLower(reports[3].file);
    OneCall(reports, skeletons[reports[0]], SvcStem(reports[2].file));
    OneCall(reports, skeletons[reports[1]], SvcStem(reports[0].file));
    OneCall(reports, skeletons[reports[2]], SvcStem(reports[3].file));
    hide SvcStem, Resolve, Keys;
    forall i | 0 <= i < 4 ensures reports[i] in reports {
    }
  }
}
