/** Ranking dispatch axes: recognizer groups ordered by their own rubric, then stably by nest depth, and the
    registry of axes that do not collide. */
module AxisRanking {
  import opened Options
  import opened Sorting

  datatype Axis = Axis(ref: string, refName: string, alias: string, domain: seq<string>, sites: int, normalized: bool,
                       guardLines: seq<int>)

  /** Which recognizer found a candidate; earlier ones have priority. */
  datatype Recognizer = NormalizeChain | DirectCompare | CharCompare

  datatype Candidate = Candidate(axis: Axis, weight: int, sites: int, key: string, found: Recognizer)

  /** One entry of a statistics map, with what its recognizer makes of it. */
  datatype Entry = Entry(key: string, weight: int, guardSites: int, axis: Axis, sites: int)

  // ---------------------------------------------------------------- stable sorting

  /** An order in which "neither is less" is an equivalence. */
  ghost predicate WeakOrder<T(!new)>(less: (T, T) -> bool) {
    && (forall a, b :: !(less(a, b) && less(b, a)))
    && (forall a, b, c :: less(a, b) ==> less(a, c) || less(c, b))
  }

  /** First position whose element is greater than `x`. */
  function Place<T>(s: seq<T>, x: T, less: (T, T) -> bool, k: nat): (r: nat)
    requires k <= |s|
    ensures k <= r <= |s| && (r < |s| ==> less(x, s[r])) && forall i :: k <= i < r ==> !less(x, s[i])
    decreases |s| - k
  {
    if k == |s| || less(x, s[k]) then k else Place(s, x, less, k + 1)
  }

  function InsertAt<T>(s: seq<T>, k: nat, x: T): seq<T>
    requires k <= |s|
  {
    s[..k] + [x] + s[k..]
  }

  /** What `sort.SliceStable` leaves: each element after all that are not greater. */
  function StableSort<T>(s: seq<T>, less: (T, T) -> bool): (r: seq<T>)
    ensures |r| == |s|
  {
    if s == [] then []
    else
      var r := StableSort(s[..|s| - 1], less);
      InsertAt(r, Place(r, s[|s| - 1], less, 0), s[|s| - 1])
  }

  /** No element is less than an earlier one, and elements that tie are related by `p`. */
  ghost predicate Ranked<T>(s: seq<T>, less: (T, T) -> bool, p: (T, T) -> bool) {
    forall i, j :: 0 <= i < j < |s| ==> Follows(s[i], s[j], less, p)
  }

  ghost predicate Pairwise<T>(s: seq<T>, p: (T, T) -> bool) {
    forall i, j :: 0 <= i < j < |s| ==> p(s[i], s[j])
  }

  ghost predicate Follows<T>(a: T, b: T, less: (T, T) -> bool, p: (T, T) -> bool) {
    less(a, b) || (!less(b, a) && p(a, b))
  }

  /** An element placed before a greater one is less than all that follow. */
  lemma LessThanRest<T(!new)>(x: T, y: T, z: T, less: (T, T) -> bool)
    requires WeakOrder(less) && less(x, y) && (less(y, z) || !less(z, y))
    ensures less(x, z)
  {
  }

  lemma InsertRanked<T(!new)>(s: seq<T>, x: T, less: (T, T) -> bool, p: (T, T) -> bool)
    requires WeakOrder(less) && Ranked(s, less, p) && forall i :: 0 <= i < |s| ==> p(s[i], x)
    ensures Ranked(InsertAt(s, Place(s, x, less, 0), x), less, p)
  {
    var k := Place(s, x, less, 0);
    forall j | k <= j < |s| ensures less(x, s[j]) {
      if j > k {
        assert Follows(s[k], s[j], less, p);
        LessThanRest(x, s[k], s[j], less);
      }
    }
    hide WeakOrder, Place, Follows;
    var r := InsertAt(s, k, x);
    forall i, j | 0 <= i < j < |r| ensures Follows(r[i], r[j], less, p) {
      InsertIndex(s, k, x, i);
      InsertIndex(s, k, x, j);
      hide InsertAt;
      if i == k {
        FollowsLess(x, s[j - 1], less, p);
      } else if j == k {
        FollowsTie(s[i], x, less, p);
      }
    }
  }

  lemma InsertIndex<T>(s: seq<T>, k: nat, x: T, i: nat)
    requires k <= |s| && i < |s| + 1
    ensures |InsertAt(s, k, x)| == |s| + 1
    ensures InsertAt(s, k, x)[i] == if i < k then s[i] else if i == k then x else s[i - 1]
  {
  }

  lemma FollowsLess<T(!new)>(a: T, b: T, less: (T, T) -> bool, p: (T, T) -> bool)
    requires less(a, b)
    ensures Follows(a, b, less, p)
  {
  }

  lemma FollowsTie<T(!new)>(a: T, b: T, less: (T, T) -> bool, p: (T, T) -> bool)
    requires !less(b, a) && p(a, b)
    ensures Follows(a, b, less, p)
  {
  }

  lemma {:induction false} SortedMembers<T(!new)>(s: seq<T>, less: (T, T) -> bool)
    ensures multiset(StableSort(s, less)) == multiset(s)
  {
    if s != [] {
      var n := |s| - 1;
      SortedMembers(s[..n], less);
      assert s == s[..n] + [s[n]];
      var r := StableSort(s[..n], less);
      InsertMembers(r, Place(r, s[n], less, 0), s[n]);
    }
  }

  lemma InsertMembers<T>(r: seq<T>, k: nat, x: T)
    requires k <= |r|
    ensures multiset(InsertAt(r, k, x)) == multiset(r) + multiset{x}
  {
    assert r == r[..k] + r[k..];
  }

  /** Stable sorting refines the order the elements came in: whatever held between every element and the later
      ones still holds between those that tie. */
  lemma {:induction false} StableSortRanks<T(!new)>(s: seq<T>, less: (T, T) -> bool, p: (T, T) -> bool)
    requires WeakOrder(less) && Pairwise(s, p)
    ensures Ranked(StableSort(s, less), less, p)
  {
    hide WeakOrder, Place;
    if s != [] {
      var n := |s| - 1;
      StableSortRanks(s[..n], less, p);
      var r := StableSort(s[..n], less);
      SortedMembers(s[..n], less);
      PermutedMembers(r, s[..n]);
      forall i | 0 <= i < |r| ensures p(r[i], s[n]) {
        assert r[i] in s[..n];
      }
      InsertRanked(r, s[n], less, p);
    }
  }

  method SortStable<T>(s: seq<T>, less: (T, T) -> bool) returns (r: seq<T>)
    ensures r == StableSort(s, less)
  {
    r := [];
    for n := 0 to |s|
      invariant r == StableSort(s[..n], less)
    {
      assert s[..n + 1][..n] == s[..n];
      var k := 0;
      while k < |r| && !less(s[n], r[k])
        invariant k <= |r| && Place(r, s[n], less, 0) == Place(r, s[n], less, k)
      {
        k := k + 1;
      }
      r := r[..k] + [s[n]] + r[k..];
    }
    assert s[..|s|] == s;
  }

  // ---------------------------------------------------------------- candidates

  predicate Qualifies(e: Entry) {
    e.weight > 0 && e.guardSites >= 2 && |e.axis.domain| >= 2
  }

  function Qualified(entries: seq<Entry>, found: Recognizer): seq<Candidate> {
    if entries == [] then []
    else
      var e := entries[|entries| - 1];
      var cands := Qualified(entries[..|entries| - 1], found);
      if Qualifies(e) then cands + [Candidate(e.axis, e.weight, e.sites, e.key, found)] else cands
  }

  predicate ByWeight(a: Candidate, b: Candidate) {
    if a.weight != b.weight then a.weight > b.weight
    else if a.sites != b.sites then a.sites > b.sites
    else StringLess(a.key, b.key)
  }

  predicate ByDomain(a: Candidate, b: Candidate) {
    if |a.axis.domain| != |b.axis.domain| then |a.axis.domain| > |b.axis.domain|
    else if a.axis.sites != b.axis.sites then a.axis.sites > b.axis.sites
    else StringLess(a.axis.refName, b.axis.refName)
  }

  /** The rubric of a recognizer: direct compares contest on their domains, the others on their weights. */
  predicate Beats(a: Candidate, b: Candidate) {
    if a.found.DirectCompare? then ByDomain(a, b) else ByWeight(a, b)
  }

  /** The shallowest known nest depth of an axis' guards; zero when none is known. */
  function NestUpTo(nest: map<int, nat>, lines: seq<int>): Option<nat> {
    if lines == [] then None
    else
      var best := NestUpTo(nest, lines[..|lines| - 1]);
      var l := lines[|lines| - 1];
      if l in nest && (best.None? || nest[l] < best.value) then Some(nest[l]) else best
  }

  function NestOf(nest: map<int, nat>, a: Axis): nat {
    match NestUpTo(nest, a.guardLines)
    case None => 0
    case Some(d) => d
  }

  function CollectAxes(entries: seq<Entry>, found: Recognizer): seq<Candidate> {
    StableSort(Qualified(entries, found), ByWeight)
  }

  function Shallower(nest: map<int, nat>): (Candidate, Candidate) -> bool {
    (a: Candidate, b: Candidate) => NestOf(nest, a.axis) < NestOf(nest, b.axis)
  }

  /** The statistics of one entry function, by spelling, each listed by key; and the depth of its guard lines. */
  datatype Harvest = Harvest(normalized: seq<Entry>, refs: seq<Entry>, symbols: seq<Entry>, chars: seq<Entry>, nest: map<int, nat>)

  function Groups(h: Harvest): seq<Candidate> {
    CollectAxes(h.normalized, NormalizeChain) +
    StableSort(CollectAxes(h.refs, DirectCompare) + CollectAxes(h.symbols, DirectCompare), ByDomain) +
    CollectAxes(h.chars, CharCompare)
  }

  function Candidates(h: Harvest): seq<Candidate> {
    StableSort(Groups(h), Shallower(h.nest))
  }

  /** The least depth of the guards whose depth is known, and zero when none is. */
  lemma NestIsMinimum(nest: map<int, nat>, a: Axis)
    ensures forall l :: l in a.guardLines && l in nest ==> NestOf(nest, a) <= nest[l]
    ensures if exists l :: l in a.guardLines && l in nest
            then exists l :: l in a.guardLines && l in nest && nest[l] == NestOf(nest, a)
            else NestOf(nest, a) == 0
  {
    NestUpToMinimum(nest, a.guardLines);
  }

  lemma {:induction false} NestUpToMinimum(nest: map<int, nat>, lines: seq<int>)
    ensures match NestUpTo(nest, lines)
            case None => forall l :: l in lines ==> l !in nest
            case Some(d) => (exists l :: l in lines && l in nest && nest[l] == d) && forall l :: l in lines && l in nest ==> d <= nest[l]
  {
    if lines != [] {
      var n := |lines| - 1;
      NestUpToMinimum(nest, lines[..n]);
      assert lines[n] in lines;
      assert forall l :: l in lines <==> l in lines[..n] || l == lines[n];
    }
  }

  method FindNest(nest: map<int, nat>, a: Axis) returns (d: nat)
    ensures forall l :: l in a.guardLines && l in nest ==> d <= nest[l]
    ensures if exists l :: l in a.guardLines && l in nest then exists l :: l in a.guardLines && l in nest && nest[l] == d
            else d == 0
    ensures d == NestOf(nest, a)
  {
    NestIsMinimum(nest, a);
    var best: int := -1;
    for i := 0 to |a.guardLines|
      invariant best == match NestUpTo(nest, a.guardLines[..i]) case None => -1 case Some(d) => d
    {
      assert a.guardLines[..i + 1][..i] == a.guardLines[..i];
      var l := a.guardLines[i];
      if l in nest && (best < 0 || nest[l] < best) {
        best := nest[l];
      }
    }
    assert a.guardLines[..|a.guardLines|] == a.guardLines;
    if best < 0 {
      return 0;
    }
    return best;
  }

  method Collect(entries: seq<Entry>, found: Recognizer) returns (r: seq<Candidate>)
    ensures r == CollectAxes(entries, found)
  {
    var cands: seq<Candidate> := [];
    for i := 0 to |entries|
      invariant cands == Qualified(entries[..i], found)
    {
      assert entries[..i + 1][..i] == entries[..i];
      var e := entries[i];
      if e.weight <= 0 || e.guardSites < 2 || |e.axis.domain| < 2 {
        continue;
      }
      cands := cands + [Candidate(e.axis, e.weight, e.sites, e.key, found)];
    }
    assert entries[..|entries|] == entries;
    r := SortStable(cands, ByWeight);
  }

  method ListCandidates(h: Harvest) returns (all: seq<Candidate>)
    ensures all == Candidates(h)
  {
    var refs := Collect(h.refs, DirectCompare);
    var symbols := Collect(h.symbols, DirectCompare);
    var direct := SortStable(refs + symbols, ByDomain);
    var first := Collect(h.normalized, NormalizeChain);
    var last := Collect(h.chars, CharCompare);
    all := SortStable(first + direct + last, Shallower(h.nest));
  }

  // ---------------------------------------------------------------- the order of the candidates

  function Priority(r: Recognizer): nat {
    match r
    case NormalizeChain => 0
    case DirectCompare => 1
    case CharCompare => 2
  }

  /** Recognizer priority, then the recognizer's own rubric. */
  predicate InOrder(a: Candidate, b: Candidate) {
    Priority(a.found) < Priority(b.found) || (a.found == b.found && !Beats(b, a))
  }

  lemma StringLessWeak(a: string, b: string, c: string)
    ensures !(StringLess(a, b) && StringLess(b, a))
    ensures StringLess(a, b) ==> StringLess(a, c) || StringLess(c, b)
  {
    StringLessAsymmetric(a, b);
    StringLessTotal(a, c);
    if StringLess(a, b) && StringLess(c, a) {
      StringLessTransitive(c, a, b);
    }
  }

  lemma ByWeightWeak()
    ensures WeakOrder(ByWeight)
  {
    forall a: Candidate, b: Candidate ensures !(ByWeight(a, b) && ByWeight(b, a)) {
      StringLessWeak(a.key, b.key, a.key);
    }
    forall a: Candidate, b: Candidate, c: Candidate ensures ByWeight(a, b) ==> ByWeight(a, c) || ByWeight(c, b) {
      StringLessWeak(a.key, b.key, c.key);
    }
  }

  lemma ByDomainWeak()
    ensures WeakOrder(ByDomain)
  {
    forall a: Candidate, b: Candidate ensures !(ByDomain(a, b) && ByDomain(b, a)) {
      StringLessWeak(a.axis.refName, b.axis.refName, a.axis.refName);
    }
    forall a: Candidate, b: Candidate, c: Candidate ensures ByDomain(a, b) ==> ByDomain(a, c) || ByDomain(c, b) {
      StringLessWeak(a.axis.refName, b.axis.refName, c.axis.refName);
    }
  }

  lemma ShallowerWeak(nest: map<int, nat>)
    ensures WeakOrder(Shallower(nest))
  {
  }

  lemma {:induction false} QualifiedFound(entries: seq<Entry>, found: Recognizer)
    ensures forall i :: 0 <= i < |Qualified(entries, found)| ==> Qualified(entries, found)[i].found == found
  {
    if entries != [] {
      QualifiedFound(entries[..|entries| - 1], found);
    }
  }

  lemma SortKeepsFound(s: seq<Candidate>, less: (Candidate, Candidate) -> bool, found: Recognizer)
    requires forall i :: 0 <= i < |s| ==> s[i].found == found
    ensures forall i :: 0 <= i < |StableSort(s, less)| ==> StableSort(s, less)[i].found == found
  {
    SortedMembers(s, less);
    PermutedMembers(StableSort(s, less), s);
    forall i | 0 <= i < |StableSort(s, less)| ensures StableSort(s, less)[i].found == found {
      assert StableSort(s, less)[i] in s;
    }
  }

  /** The candidates of one recognizer, in the order of its rubric. */
  ghost predicate GroupOrdered(s: seq<Candidate>, found: Recognizer) {
    (forall i :: 0 <= i < |s| ==> s[i].found == found) && Pairwise(s, InOrder)
  }

  lemma CollectedFound(entries: seq<Entry>, found: Recognizer)
    ensures forall i :: 0 <= i < |CollectAxes(entries, found)| ==> CollectAxes(entries, found)[i].found == found
  {
    QualifiedFound(entries, found);
    SortKeepsFound(Qualified(entries, found), ByWeight, found);
  }

  lemma CollectedOrdered(entries: seq<Entry>, found: Recognizer)
    requires !found.DirectCompare?
    ensures GroupOrdered(CollectAxes(entries, found), found)
  {
    CollectedFound(entries, found);
    ByWeightWeak();
    var any: (Candidate, Candidate) -> bool := (a, b) => true;
    StableSortRanks(Qualified(entries, found), ByWeight, any);
    hide ByWeight, StableSort, Qualified;
    var s := CollectAxes(entries, found);
    forall i, j | 0 <= i < j < |s| ensures InOrder(s[i], s[j]) {
      assert ByWeight(s[i], s[j]) || !ByWeight(s[j], s[i]);
      assert !(ByWeight(s[i], s[j]) && ByWeight(s[j], s[i]));
    }
  }

  lemma DirectOrdered(h: Harvest)
    ensures GroupOrdered(StableSort(CollectAxes(h.refs, DirectCompare) + CollectAxes(h.symbols, DirectCompare), ByDomain), DirectCompare)
  {
    CollectedFound(h.refs, DirectCompare);
    CollectedFound(h.symbols, DirectCompare);
    var both := CollectAxes(h.refs, DirectCompare) + CollectAxes(h.symbols, DirectCompare);
    SortKeepsFound(both, ByDomain, DirectCompare);
    ByDomainWeak();
    var any: (Candidate, Candidate) -> bool := (a, b) => true;
    StableSortRanks(both, ByDomain, any);
    hide ByDomain, StableSort, CollectAxes;
    var s := StableSort(both, ByDomain);
    forall i, j | 0 <= i < j < |s| ensures InOrder(s[i], s[j]) {
      assert ByDomain(s[i], s[j]) || !ByDomain(s[j], s[i]);
      assert !(ByDomain(s[i], s[j]) && ByDomain(s[j], s[i]));
    }
  }

  lemma PairwiseConcat(a: seq<Candidate>, b: seq<Candidate>)
    requires Pairwise(a, InOrder) && Pairwise(b, InOrder)
    requires forall i, j :: 0 <= i < |a| && 0 <= j < |b| ==> Priority(a[i].found) < Priority(b[j].found)
    ensures Pairwise(a + b, InOrder)
  {
    var s := a + b;
    forall i, j | 0 <= i < j < |s| ensures InOrder(s[i], s[j]) {
      if j < |a| {
        assert s[i] == a[i] && s[j] == a[j];
      } else if i >= |a| {
        assert s[i] == b[i - |a|] && s[j] == b[j - |a|];
      }
    }
  }

  lemma GroupsInOrder(h: Harvest)
    ensures Pairwise(Groups(h), InOrder)
  {
    CollectedOrdered(h.normalized, NormalizeChain);
    CollectedOrdered(h.chars, CharCompare);
    DirectOrdered(h);
    hide CollectAxes, StableSort, Pairwise, InOrder;
    var a := CollectAxes(h.normalized, NormalizeChain);
    var b := StableSort(CollectAxes(h.refs, DirectCompare) + CollectAxes(h.symbols, DirectCompare), ByDomain);
    PairwiseConcat(a, b);
    PairwiseConcat(a + b, CollectAxes(h.chars, CharCompare));
  }

  /** Of two candidates the earlier has shallower guards, or as deep ones and a recognizer of higher priority, or
      the same recognizer whose rubric does not prefer the later one. */
  lemma CandidatesLexicographic(h: Harvest, i: nat, j: nat)
    requires i < j < |Candidates(h)|
    ensures var a, b := Candidates(h)[i], Candidates(h)[j];
            || NestOf(h.nest, a.axis) < NestOf(h.nest, b.axis)
            || (NestOf(h.nest, a.axis) == NestOf(h.nest, b.axis) && InOrder(a, b))
  {
    GroupsInOrder(h);
    ShallowerWeak(h.nest);
    StableSortRanks(Groups(h), Shallower(h.nest), InOrder);
    hide StableSort, Groups, NestOf, InOrder;
  }

  /** The statistics a recognizer reads. */
  function Statistics(h: Harvest, found: Recognizer): seq<Entry> {
    match found
    case NormalizeChain => h.normalized
    case DirectCompare => h.refs + h.symbols
    case CharCompare => h.chars
  }

  /** The candidate is what the recognizer makes of a qualifying entry. */
  ghost predicate ComesFrom(entries: seq<Entry>, c: Candidate) {
    exists e :: e in entries && Qualifies(e) && c == Candidate(e.axis, e.weight, e.sites, e.key, c.found)
  }

  lemma {:induction false} QualifiedMembers(entries: seq<Entry>, found: Recognizer, c: Candidate)
    ensures c in Qualified(entries, found) <==> c.found == found && ComesFrom(entries, c)
  {
    if entries != [] {
      var n := |entries| - 1;
      QualifiedMembers(entries[..n], found, c);
      assert forall e :: e in entries <==> e in entries[..n] || e == entries[n];
    }
  }

  /** The candidates are exactly the qualifying entries of the recognizers' statistics. */
  lemma CandidatesQualify(h: Harvest, c: Candidate)
    ensures c in Candidates(h) <==> ComesFrom(Statistics(h, c.found), c)
  {
    SortedMembers(Groups(h), Shallower(h.nest));
    PermutedMembers(Candidates(h), Groups(h));
    CollectedMembers(h.normalized, NormalizeChain, c);
    CollectedMembers(h.chars, CharCompare, c);
    CollectedMembers(h.refs, DirectCompare, c);
    CollectedMembers(h.symbols, DirectCompare, c);
    var both := CollectAxes(h.refs, DirectCompare) + CollectAxes(h.symbols, DirectCompare);
    SortedMembers(both, ByDomain);
    PermutedMembers(StableSort(both, ByDomain), both);
    EitherComesFrom(h.refs, h.symbols, c);
    hide StableSort, CollectAxes, ComesFrom;
  }

  lemma EitherComesFrom(a: seq<Entry>, b: seq<Entry>, c: Candidate)
    ensures ComesFrom(a + b, c) <==> ComesFrom(a, c) || ComesFrom(b, c)
  {
    assert forall e :: e in a + b <==> e in a || e in b;
  }

  lemma CollectedMembers(entries: seq<Entry>, found: Recognizer, c: Candidate)
    ensures c in CollectAxes(entries, found) <==> c.found == found && ComesFrom(entries, c)
  {
    SortedMembers(Qualified(entries, found), ByWeight);
    PermutedMembers(CollectAxes(entries, found), Qualified(entries, found));
    QualifiedMembers(entries, found, c);
    hide Qualified, StableSort, ComesFrom;
  }

  // ---------------------------------------------------------------- the registry

  /** Positions of the axes registered, the keys they took, and the references they stand for. */
  datatype Registry = Registry(kept: seq<nat>, keys: set<string>, refs: set<string>)

  predicate Collides(r: Registry, a: Axis) {
    a.refName in r.keys || a.ref in r.refs || (a.alias != "" && a.alias in r.refs)
  }

  predicate Registers(r: Registry, a: Axis) {
    |a.domain| >= 2 && a.refName != "" && !Collides(r, a)
  }

  /** The references an axis stands for: its own, its alias, and every alias of a normalized one. */
  function RefsOf(a: Axis, links: map<string, set<string>>): set<string> {
    {a.ref} + (if a.alias != "" then {a.alias} else {}) + (if a.normalized && a.ref in links then links[a.ref] else {})
  }

  function RegisterUpTo(cands: seq<Candidate>, links: map<string, set<string>>, k: nat): Registry
    requires k <= |cands|
  {
    if k == 0 then Registry([], {}, {})
    else
      var r := RegisterUpTo(cands, links, k - 1);
      var a := cands[k - 1].axis;
      if Registers(r, a) then Registry(r.kept + [k - 1], r.keys + {a.refName}, r.refs + RefsOf(a, links)) else r
  }

  method RankedAxes(cands: seq<Candidate>, links: map<string, set<string>>) returns (out: seq<Axis>)
    ensures var kept := RegisterUpTo(cands, links, |cands|).kept;
            |out| == |kept| && forall i :: 0 <= i < |kept| ==> kept[i] < |cands| && out[i] == cands[kept[i]].axis
  {
    out := [];
    var keys: set<string>, refs: set<string> := {}, {};
    ghost var kept: seq<nat> := [];
    for k := 0 to |cands|
      invariant Registry(kept, keys, refs) == RegisterUpTo(cands, links, k)
      invariant |out| == |kept| && forall i :: 0 <= i < |kept| ==> kept[i] < |cands| && out[i] == cands[kept[i]].axis
    {
      var a := cands[k].axis;
      if |a.domain| < 2 || a.refName == "" {
        continue;
      }
      if a.refName in keys || a.ref in refs {
        continue;
      }
      if a.alias != "" && a.alias in refs {
        continue;
      }
      keys := keys + {a.refName};
      refs := refs + RefsOf(a, links);
      out := out + [a];
      kept := kept + [k];
    }
  }

  /** Two axes that may both be registered, the first before the second. */
  predicate Compatible(a: Axis, b: Axis, links: map<string, set<string>>) {
    a.refName != b.refName && b.ref !in RefsOf(a, links) && (b.alias != "" ==> b.alias !in RefsOf(a, links))
  }

  /** The registry lists candidates in candidate order, any two of them compatible. */
  lemma {:induction false} RegistryCompatible(cands: seq<Candidate>, links: map<string, set<string>>, k: nat)
    requires k <= |cands|
    ensures var r := RegisterUpTo(cands, links, k);
            && (forall i :: 0 <= i < |r.kept| ==> r.kept[i] < k && Recorded(r, cands[r.kept[i]].axis, links))
            && (forall i, j :: 0 <= i < j < |r.kept| ==>
                  (r.kept[i] < r.kept[j] && Compatible(cands[r.kept[i]].axis, cands[r.kept[j]].axis, links)))
    decreases k
  {
    hide RefsOf, Registers, Recorded, Compatible;
    if k > 0 {
      RegistryCompatible(cands, links, k - 1);
      KeptNext(cands, links, k);
      var r', a := RegisterUpTo(cands, links, k - 1), cands[k - 1].axis;
      var r := RegisterUpTo(cands, links, k);
      forall i | 0 <= i < |r'.kept|
        ensures r'.kept[i] < |cands| && Recorded(r, cands[r'.kept[i]].axis, links)
        ensures Registers(r', a) ==> Compatible(cands[r'.kept[i]].axis, a, links)
      {
        RegisterOne(r', cands[r'.kept[i]].axis, a, k - 1, links);
      }
      RegisterOne(r', a, a, k - 1, links);
    }
  }

  /** The registry knows an axis. */
  predicate Recorded(r: Registry, a: Axis, links: map<string, set<string>>) {
    a.refName in r.keys && RefsOf(a, links) <= r.refs
  }

  lemma RegisterOne(r: Registry, a: Axis, b: Axis, k: nat, links: map<string, set<string>>)
    ensures var r' := Registry(r.kept + [k], r.keys + {b.refName}, r.refs + RefsOf(b, links));
            && (Recorded(r, a, links) ==> Recorded(r', a, links)) && Recorded(r', b, links)
            && (Recorded(r, a, links) && Registers(r, b) ==> Compatible(a, b, links))
  {
    hide RefsOf;
  }

  /** Everything the registry holds comes from an axis registered. */
  lemma {:induction false} RegistryFrom(cands: seq<Candidate>, links: map<string, set<string>>, k: nat, x: string)
    requires k <= |cands|
    ensures var r := RegisterUpTo(cands, links, k);
            && (forall i :: 0 <= i < |r.kept| ==> r.kept[i] < k)
            && (x in r.keys ==> (exists i :: 0 <= i < |r.kept| && cands[r.kept[i]].axis.refName == x))
            && (x in r.refs ==> (exists i :: 0 <= i < |r.kept| && x in RefsOf(cands[r.kept[i]].axis, links)))
    decreases k
  {
    hide RefsOf;
    if k > 0 {
      RegistryFrom(cands, links, k - 1, x);
      var r', r := RegisterUpTo(cands, links, k - 1), RegisterUpTo(cands, links, k);
      KeptNext(cands, links, k);
    }
  }

  lemma {:induction false} KeptStays(cands: seq<Candidate>, links: map<string, set<string>>, i: nat, k: nat)
    requires i <= k <= |cands|
    ensures RegisterUpTo(cands, links, i).kept <= RegisterUpTo(cands, links, k).kept
    decreases k
  {
    hide Registers;
    if i < k {
      KeptStays(cands, links, i, k - 1);
    }
  }

  /** A qualifying candidate with a key is registered, or an axis registered before it is incompatible with it. */
  lemma RegistryComplete(cands: seq<Candidate>, links: map<string, set<string>>, c: nat)
    requires c < |cands| && |cands[c].axis.domain| >= 2 && cands[c].axis.refName != ""
    ensures var kept := RegisterUpTo(cands, links, |cands|).kept;
            c in kept || exists i :: 0 <= i < |kept| && kept[i] < c && !Compatible(cands[kept[i]].axis, cands[c].axis, links)
  {
    var a := cands[c].axis;
    var r := RegisterUpTo(cands, links, c);
    var kept := RegisterUpTo(cands, links, |cands|).kept;
    KeptStays(cands, links, c, |cands|);
    KeptStays(cands, links, c + 1, |cands|);
    RegistryFrom(cands, links, c, a.refName);
    RegistryFrom(cands, links, c, a.ref);
    RegistryFrom(cands, links, c, a.alias);
    if Registers(r, a) {
      assert RegisterUpTo(cands, links, c + 1).kept[|r.kept|] == c;
      assert kept[|r.kept|] == c;
    } else {
      hide RefsOf, RegisterUpTo;
      var i :| 0 <= i < |r.kept| && !Compatible(cands[r.kept[i]].axis, a, links);
      assert kept[i] == r.kept[i];
    }
  }

  /** Rank zero of the registry is the axis the slicer takes exactly when that axis has a key. */
  lemma RankZeroIsBestIff(h: Harvest, links: map<string, set<string>>)
    requires Candidates(h) != []
    ensures var cands := Candidates(h); var kept := RegisterUpTo(cands, links, |cands|).kept;
            cands[0].axis.refName != "" <==> (kept != [] && kept[0] == 0)
  {
    var cands := Candidates(h);
    CandidatesQualify(h, Candidates(h)[0]);
    hide Candidates;
    KeptStays(cands, links, 1, |cands|);
    RegistryKeyed(cands, links, |cands|);
    if cands[0].axis.refName != "" {
      assert Registers(RegisterUpTo(cands, links, 0), cands[0].axis);
      assert RegisterUpTo(cands, links, 1).kept == [] + [0];
      assert RegisterUpTo(cands, links, |cands|).kept[0] == RegisterUpTo(cands, links, 1).kept[0];
    }
  }

  lemma {:induction false} RegistryKeyed(cands: seq<Candidate>, links: map<string, set<string>>, k: nat)
    requires k <= |cands|
    ensures var r := RegisterUpTo(cands, links, k);
            forall i :: 0 <= i < |r.kept| ==> r.kept[i] < k && cands[r.kept[i]].axis.refName != ""
    decreases k
  {
    hide RefsOf;
    if k > 0 {
      RegistryKeyed(cands, links, k - 1);
      KeptNext(cands, links, k);
    }
  }

  lemma KeptNext(cands: seq<Candidate>, links: map<string, set<string>>, k: nat)
    requires 0 < k <= |cands|
    ensures var r', r := RegisterUpTo(cands, links, k - 1), RegisterUpTo(cands, links, k);
            if Registers(r', cands[k - 1].axis)
            then |r.kept| == |r'.kept| + 1 && r.kept[|r'.kept|] == k - 1 && forall i :: 0 <= i < |r'.kept| ==> r.kept[i] == r'.kept[i]
            else r == r'
  {
    hide Registers, RefsOf;
  }
}
