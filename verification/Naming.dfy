/** Names for generated methods, query constants and row types: suffix search, pins, and the draft's agreement
    with the plan. */
module Naming {
  import opened Options
  import opened Text
  import opened Delimited
  import opened Numerals

  // ---------------------------------------------------------------- the suffix search

  function Suffixed(base: string, i: nat): string {
    base + Itoa(i)
  }

  lemma SuffixesDiffer(base: string, i: nat, j: nat)
    requires Suffixed(base, i) == Suffixed(base, j)
    ensures i == j
  {
    assert Itoa(i) == Suffixed(base, i)[|base|..];
    assert Itoa(j) == Suffixed(base, j)[|base|..];
    AtoiItoa(i);
    AtoiItoa(j);
  }

  /** Taken names that no suffix below `i` has tried. */
  ghost function Untried(base: string, taken: set<string>, i: nat): set<string> {
    set s | s in taken && forall j: nat :: j < i ==> s != Suffixed(base, j)
  }

  /** Each taken candidate uses up one taken name. */
  lemma UntriedShrinks(base: string, taken: set<string>, i: nat)
    requires Suffixed(base, i) in taken
    ensures |Untried(base, taken, i + 1)| < |Untried(base, taken, i)|
  {
    hide Suffixed;
    var c := Suffixed(base, i);
    forall j: nat | j < i ensures c != Suffixed(base, j) {
      if c == Suffixed(base, j) {
        SuffixesDiffer(base, i, j);
      }
    }
    var a, b := Untried(base, taken, i), Untried(base, taken, i + 1);
    assert c in a && c !in b;
    assert b <= a - {c};
    SubsetSize(b, a - {c});
  }

  lemma SubsetSize(a: set<string>, b: set<string>)
    requires a <= b
    ensures |a| <= |b|
  {
    assert |b| == |a| + |b - a| by {
      assert b == a + (b - a);
    }
  }

  /** Least suffix from `i` on whose name is free. */
  function FirstFree(base: string, taken: set<string>, i: nat): (r: nat)
    ensures r >= i && Suffixed(base, r) !in taken
    decreases |Untried(base, taken, i)|
  {
    if Suffixed(base, i) !in taken then i else
      UntriedShrinks(base, taken, i);
      FirstFree(base, taken, i + 1)
  }

  /** The search skips taken names only, and no more of them than there are. */
  lemma {:induction false} FirstFreeLeast(base: string, taken: set<string>, i: nat)
    ensures var r := FirstFree(base, taken, i);
            && (forall j: nat :: i <= j < r ==> Suffixed(base, j) in taken)
            && r <= i + |taken|
    decreases |Untried(base, taken, i)|
  {
    hide Suffixed;
    FirstFreeBound(base, taken, i);
    SubsetSize(Untried(base, taken, i), taken);
    if Suffixed(base, i) in taken {
      UntriedShrinks(base, taken, i);
      FirstFreeLeast(base, taken, i + 1);
    }
  }

  lemma {:induction false} FirstFreeBound(base: string, taken: set<string>, i: nat)
    ensures FirstFree(base, taken, i) <= i + |Untried(base, taken, i)|
    decreases |Untried(base, taken, i)|
  {
    hide Suffixed;
    if Suffixed(base, i) in taken {
      UntriedShrinks(base, taken, i);
      FirstFreeBound(base, taken, i + 1);
    }
  }

  /** The base if it is free, else the base with the least free suffix from two on. */
  function NextName(base: string, used: set<string>): (name: string)
    ensures name !in used && base <= name
  {
    if base !in used then base else Suffixed(base, FirstFree(base, used, 2))
  }

  method FindName(base: string, used: set<string>) returns (name: string)
    ensures name == NextName(base, used)
  {
    name := base;
    var i: nat := 2;
    while name in used
      invariant i >= 2 && (i > 2 ==> base in used)
      invariant name == if i == 2 then base else Suffixed(base, i - 1)
      invariant i > 2 ==> FirstFree(base, used, 2) == FirstFree(base, used, i - 1)
      decreases if i == 2 then |Untried(base, used, 2)| + 1 else |Untried(base, used, i - 1)|
    {
      if i > 2 {
        UntriedShrinks(base, used, i - 1);
      }
      name := base + Itoa(i);
      i := i + 1;
    }
  }

  // ---------------------------------------------------------------- query names

  /** A query unit with the name its statement suggests; duplicates refer to the unit they repeat. */
  datatype Query = Query(id: string, base: string, duplicateOf: string)

  function NamesUpTo(queries: seq<Query>, k: nat): (map<string, string>, set<string>)
    requires k <= |queries|
  {
    if k == 0 then (map[], {})
    else
      var (out, used) := NamesUpTo(queries, k - 1);
      var q := queries[k - 1];
      if q.duplicateOf != "" then (out, used)
      else
        var name := NextName(q.base, used);
        (out[q.id := name], used + {name})
  }

  method QueryNamesInOrder(queries: seq<Query>) returns (out: map<string, string>)
    ensures out == NamesUpTo(queries, |queries|).0
  {
    out := map[];
    var used: set<string> := {};
    for k := 0 to |queries|
      invariant (out, used) == NamesUpTo(queries, k)
    {
      hide NextName;
      var q := queries[k];
      if q.duplicateOf != "" {
        continue;
      }
      var name := FindName(q.base, used);
      used := used + {name};
      out := out[q.id := name];
    }
  }

  /** A planned query: its name is the default until it is made unique. */
  datatype QueryPlan = QueryPlan(id: string, name: string)

  type Pins = map<string, string>

  predicate Pinned(pins: Pins, id: string) {
    id in pins && pins[id] != ""
  }

  function PinNames(queries: seq<QueryPlan>, pins: Pins, k: nat): set<string>
    requires k <= |queries|
  {
    if k == 0 then {}
    else
      var id := queries[k - 1].id;
      PinNames(queries, pins, k - 1) + if Pinned(pins, id) then {pins[id]} else {}
  }

  /** Names used and final plans after the first `k` queries. */
  function AssignUpTo(queries: seq<QueryPlan>, pins: Pins, k: nat): (r: (set<string>, seq<QueryPlan>))
    requires k <= |queries|
    ensures |r.1| == k
  {
    if k == 0 then (PinNames(queries, pins, |queries|), [])
    else
      var (used, out) := AssignUpTo(queries, pins, k - 1);
      var q := queries[k - 1];
      if Pinned(pins, q.id) then (used, out + [q])
      else
        var name := NextName(q.name, used);
        (used + {name}, out + [q.(name := name)])
  }

  function Assigned(queries: seq<QueryPlan>, pins: Pins): (r: seq<QueryPlan>)
    ensures |r| == |queries|
  {
    AssignUpTo(queries, pins, |queries|).1
  }

  method ReservePins(queries: seq<QueryPlan>, pins: Pins) returns (used: set<string>)
    ensures used == PinNames(queries, pins, |queries|)
  {
    used := {};
    for k := 0 to |queries|
      invariant used == PinNames(queries, pins, k)
    {
      var id := queries[k].id;
      if id in pins && pins[id] != "" {
        used := used + {pins[id]};
      }
    }
  }

  method AssignUniqueQueryNames(queries: array<QueryPlan>, pins: Pins)
    modifies queries
    ensures queries[..] == Assigned(old(queries[..]), pins)
  {
    ghost var was := queries[..];
    var used := ReservePins(queries[..], pins);
    for k := 0 to queries.Length
      invariant |was| == queries.Length
      invariant (used, queries[..k]) == AssignUpTo(was, pins, k)
      invariant queries[k..] == was[k..]
    {
      hide NextName, PinNames, Pinned;
      var qp := queries[k];
      assert qp == was[k..][0];
      ghost var rest := was[k + 1..];
      assert queries[k + 1..] == queries[k..][1..] == was[k..][1..] == rest;
      ghost var done := queries[..k];
      if !Pinned(pins, qp.id) {
        var name := FindName(qp.name, used);
        queries[k] := qp.(name := name);
        used := used + {name};
      }
      assert queries[..k] == done;
      assert queries[..k + 1] == done + [queries[k]];
      assert queries[k + 1..] == rest;
    }
    assert queries[..queries.Length] == queries[..];
  }

  lemma {:induction false} PinNamesHas(queries: seq<QueryPlan>, pins: Pins, k: nat, i: nat)
    requires i < k <= |queries| && Pinned(pins, queries[i].id)
    ensures pins[queries[i].id] in PinNames(queries, pins, k)
    decreases k
  {
    if i < k - 1 {
      PinNamesHas(queries, pins, k - 1, i);
    }
  }

  /** Used names only grow; final plans stay; every unpinned final name is used, and was new when it was given. */
  lemma {:induction false} AssignStep(queries: seq<QueryPlan>, pins: Pins, i: nat, k: nat)
    requires i < k <= |queries|
    ensures var (used, out) := AssignUpTo(queries, pins, k);
            var before := AssignUpTo(queries, pins, i).0;
            && before <= used && out[i].id == queries[i].id
            && if Pinned(pins, queries[i].id) then out[i] == queries[i]
               else out[i].name == NextName(queries[i].name, before) && out[i].name in used && out[i].name !in before
    decreases k
  {
    hide NextName, PinNames;
    if i < k - 1 {
      AssignStep(queries, pins, i, k - 1);
    }
  }

  lemma {:induction false} PinsAlwaysUsed(queries: seq<QueryPlan>, pins: Pins, k: nat)
    requires k <= |queries|
    ensures PinNames(queries, pins, |queries|) <= AssignUpTo(queries, pins, k).0
    decreases k
  {
    hide NextName, PinNames;
    if k > 0 {
      PinsAlwaysUsed(queries, pins, k - 1);
    }
  }

  /** Pinned queries keep their name; an unpinned one differs from every other unpinned one and from every pin. */
  lemma AssignedUnique(queries: seq<QueryPlan>, pins: Pins, i: nat, j: nat)
    requires i < |queries| && j < |queries| && i != j && !Pinned(pins, queries[i].id)
    ensures var out := Assigned(queries, pins);
            && out[i].name != (if Pinned(pins, queries[j].id) then pins[queries[j].id] else out[j].name)
            && (Pinned(pins, queries[j].id) ==> out[j] == queries[j])
  {
    hide NextName;
    AssignStep(queries, pins, i, |queries|);
    AssignStep(queries, pins, j, |queries|);
    if Pinned(pins, queries[j].id) {
      PinNamesHas(queries, pins, |queries|, j);
      PinsAlwaysUsed(queries, pins, i);
    } else if i < j {
      AssignStep(queries, pins, i, j);
    } else {
      AssignStep(queries, pins, j, i);
    }
  }

  // ---------------------------------------------------------------- the draft and the plan

  /** A query as the plan starts with it: its pin if it has one, else its default. */
  function PlanOf(q: Query, pins: Pins): QueryPlan {
    QueryPlan(q.id, if Pinned(pins, q.id) then pins[q.id] else q.base)
  }

  function Plans(queries: seq<Query>, pins: Pins): seq<QueryPlan> {
    seq(|queries|, k requires 0 <= k < |queries| => PlanOf(queries[k], pins))
  }

  predicate Canonical(queries: seq<Query>) {
    && (forall i :: 0 <= i < |queries| ==> queries[i].duplicateOf == "")
    && (forall i, j :: 0 <= i < j < |queries| ==> queries[i].id != queries[j].id)
  }

  lemma {:induction false} NoPinNames(queries: seq<QueryPlan>, k: nat)
    requires k <= |queries|
    ensures PinNames(queries, map[], k) == {}
  {
    if k > 0 {
      NoPinNames(queries, k - 1);
    }
  }

  lemma {:induction false} DraftStep(queries: seq<Query>, k: nat, i: nat)
    requires Canonical(queries) && i < k <= |queries|
    ensures var (out, used) := NamesUpTo(queries, k);
            && queries[i].id in out && out[queries[i].id] == NextName(queries[i].base, NamesUpTo(queries, i).1)
    decreases k
  {
    hide NextName;
    if i < k - 1 {
      DraftStep(queries, k - 1, i);
    }
  }

  lemma {:induction false} SameUsed(queries: seq<Query>, k: nat)
    requires Canonical(queries) && k <= |queries|
    ensures AssignUpTo(Plans(queries, map[]), map[], k).0 == NamesUpTo(queries, k).1
    decreases k
  {
    hide NextName, PinNames;
    NoPinNames(Plans(queries, map[]), |queries|);
    if k > 0 {
      SameUsed(queries, k - 1);
    }
  }

  /** On the same order and without pins, the draft's names are the plan's. */
  lemma DraftAgreesWithPlan(queries: seq<Query>, i: nat)
    requires Canonical(queries) && i < |queries|
    ensures var names := NamesUpTo(queries, |queries|).0;
            && queries[i].id in names
            && names[queries[i].id] == Assigned(Plans(queries, map[]), map[])[i].name
  {
    hide NextName;
    DraftStep(queries, |queries|, i);
    AssignStep(Plans(queries, map[]), map[], i, |queries|);
    SameUsed(queries, i);
  }

  /** The draft's names are pairwise distinct. */
  lemma DraftDistinct(queries: seq<Query>, i: nat, j: nat)
    requires Canonical(queries) && i < |queries| && j < |queries| && i != j
    ensures var names := NamesUpTo(queries, |queries|).0;
            && queries[i].id in names && queries[j].id in names && names[queries[i].id] != names[queries[j].id]
  {
    hide NamesUpTo, Assigned;
    DraftAgreesWithPlan(queries, i);
    DraftAgreesWithPlan(queries, j);
    AssignedUnique(Plans(queries, map[]), map[], i, j);
  }

  lemma {:induction false} AllPinnedKept(queries: seq<QueryPlan>, pins: Pins, k: nat)
    requires k <= |queries| && forall i :: 0 <= i < |queries| ==> Pinned(pins, queries[i].id)
    ensures AssignUpTo(queries, pins, k).1 == queries[..k]
    decreases k
  {
    hide Pinned, PinNames;
    if k > 0 {
      AllPinnedKept(queries, pins, k - 1);
      assert queries[..k - 1] + [queries[k - 1]] == queries[..k];
    } else {
      assert queries[..0] == [];
    }
  }

  /** Fed back as pins, the draft's names are kept to the letter, in whatever order the plan lists the queries. */
  lemma PinsRoundTrip(queries: seq<Query>, order: seq<Query>)
    requires Canonical(queries) && forall i :: 0 <= i < |queries| ==> queries[i].base != ""
    requires forall i :: 0 <= i < |order| ==> order[i] in queries
    ensures var names := NamesUpTo(queries, |queries|).0;
            && Assigned(Plans(order, names), names) == Plans(order, names)
            && forall i :: 0 <= i < |order| ==> order[i].id in names && Plans(order, names)[i].name == names[order[i].id]
  {
    var names := NamesUpTo(queries, |queries|).0;
    forall i | 0 <= i < |order| ensures Pinned(names, order[i].id) {
      assert order[i] in queries;
      var j: nat :| j < |queries| && queries[j] == order[i];
      DraftStep(queries, |queries|, j);
    }
    hide NamesUpTo;
    AllPinnedKept(Plans(order, names), names, |order|);
    assert Plans(order, names)[..|order|] == Plans(order, names);
  }

  // ---------------------------------------------------------------- the draft's order

  /** The query with an identifier: the last one listed under it. */
  function ById(queries: seq<Query>, id: string): Option<Query> {
    if queries == [] then None
    else if queries[|queries| - 1].id == id then Some(queries[|queries| - 1])
    else ById(queries[..|queries| - 1], id)
  }

  /** What a slice entry stands for: the query, or the one it repeats. */
  function Resolve(queries: seq<Query>, id: string): Option<Query> {
    match ById(queries, id)
    case None => None
    case Some(q) => if q.duplicateOf != "" then ById(queries, q.duplicateOf) else Some(q)
  }

  function Ids(queries: seq<Query>): set<string> {
    set i | 0 <= i < |queries| :: queries[i].id
  }

  function AddNew(out: seq<Query>, q: Query): seq<Query> {
    if q.id in Ids(out) then out else out + [q]
  }

  function FromSlices(queries: seq<Query>, ids: seq<string>): seq<Query> {
    if ids == [] then []
    else
      var out := FromSlices(queries, ids[..|ids| - 1]);
      match Resolve(queries, ids[|ids| - 1])
      case None => out
      case Some(q) => AddNew(out, q)
  }

  function WithRest(out: seq<Query>, queries: seq<Query>, k: nat): seq<Query>
    requires k <= |queries|
  {
    if k == 0 then out
    else
      var r := WithRest(out, queries, k - 1);
      if queries[k - 1].duplicateOf == "" then AddNew(r, queries[k - 1]) else r
  }

  /** The endpoint slices' queries in order, then the rest of the file's. */
  function DraftOrder(queries: seq<Query>, sliceIds: seq<string>): seq<Query> {
    WithRest(FromSlices(queries, sliceIds), queries, |queries|)
  }

  lemma IdsNext(out: seq<Query>, q: Query)
    ensures Ids(out + [q]) == Ids(out) + {q.id}
  {
    var r := out + [q];
    forall x ensures x in Ids(r) <==> x in Ids(out) || x == q.id {
      if i :| 0 <= i < |r| && r[i].id == x {
        assert i < |out| ==> out[i] == r[i];
      }
      if i :| 0 <= i < |out| && out[i].id == x {
        assert r[i] == out[i];
      }
      assert r[|out|] == q;
    }
  }

  method IndexById(queries: seq<Query>) returns (byId: map<string, Query>)
    ensures forall id :: id in byId <==> ById(queries, id).Some?
    ensures forall id :: id in byId ==> ById(queries, id) == Some(byId[id])
  {
    byId := map[];
    for k := 0 to |queries|
      invariant forall id :: id in byId <==> ById(queries[..k], id).Some?
      invariant forall id :: id in byId ==> ById(queries[..k], id) == Some(byId[id])
    {
      assert queries[..k + 1][..k] == queries[..k];
      byId := byId[queries[k].id := queries[k]];
    }
    assert queries[..|queries|] == queries;
  }

  method DraftQueryOrder(queries: seq<Query>, sliceIds: seq<string>) returns (out: seq<Query>)
    ensures out == DraftOrder(queries, sliceIds)
  {
    var byId := IndexById(queries);
    out := [];
    var seen: set<string> := {};
    for k := 0 to |sliceIds|
      invariant out == FromSlices(queries, sliceIds[..k]) && seen == Ids(out)
    {
      hide ById, Ids;
      assert sliceIds[..k + 1][..k] == sliceIds[..k];
      var id := sliceIds[k];
      if id !in byId {
        continue;
      }
      var q := byId[id];
      if q.duplicateOf != "" {
        if q.duplicateOf !in byId {
          continue;
        }
        q := byId[q.duplicateOf];
      }
      if q.id !in seen {
        IdsNext(out, q);
        seen := seen + {q.id};
        out := out + [q];
      }
    }
    assert sliceIds[..|sliceIds|] == sliceIds;
    ghost var slices := out;
    for k := 0 to |queries|
      invariant out == WithRest(slices, queries, k) && seen == Ids(out)
    {
      hide Ids;
      var q := queries[k];
      if q.duplicateOf == "" && q.id !in seen {
        IdsNext(out, q);
        seen := seen + {q.id};
        out := out + [q];
      }
    }
  }

  ghost predicate DistinctIds(out: seq<Query>) {
    forall i, j :: 0 <= i < j < |out| ==> out[i].id != out[j].id
  }

  lemma AddNewDistinct(out: seq<Query>, q: Query)
    requires DistinctIds(out)
    ensures DistinctIds(AddNew(out, q)) && out <= AddNew(out, q)
    ensures Ids(AddNew(out, q)) == Ids(out) + {q.id}
  {
    if q.id !in Ids(out) {
      forall i | 0 <= i < |out| ensures out[i].id != q.id {
        assert out[i].id in Ids(out);
      }
      IdsNext(out, q);
    }
  }

  lemma {:induction false} SlicesDistinct(queries: seq<Query>, ids: seq<string>)
    ensures DistinctIds(FromSlices(queries, ids))
  {
    hide AddNew, Resolve, DistinctIds;
    if ids == [] {
      NoneDistinct();
    } else {
      SlicesDistinct(queries, ids[..|ids| - 1]);
      var r := Resolve(queries, ids[|ids| - 1]);
      if r.Some? {
        AddNewDistinct(FromSlices(queries, ids[..|ids| - 1]), r.value);
      }
    }
  }

  lemma NoneDistinct()
    ensures DistinctIds([])
  {
  }

  lemma {:induction false} RestDistinct(out: seq<Query>, queries: seq<Query>, k: nat)
    requires DistinctIds(out) && k <= |queries|
    ensures DistinctIds(WithRest(out, queries, k)) && out <= WithRest(out, queries, k)
    ensures forall i :: 0 <= i < k && queries[i].duplicateOf == "" ==> queries[i].id in Ids(WithRest(out, queries, k))
    decreases k
  {
    hide AddNew, DistinctIds, Ids;
    if k > 0 {
      RestDistinct(out, queries, k - 1);
      AddNewDistinct(WithRest(out, queries, k - 1), queries[k - 1]);
    }
  }

  /** The draft lists no query twice, and every non-duplicate query of the file. */
  lemma DraftOrderComplete(queries: seq<Query>, sliceIds: seq<string>)
    ensures var out := DraftOrder(queries, sliceIds);
            && DistinctIds(out)
            && forall i :: 0 <= i < |queries| && queries[i].duplicateOf == "" ==> queries[i].id in Ids(out)
  {
    hide DistinctIds, Ids;
    SlicesDistinct(queries, sliceIds);
    RestDistinct(FromSlices(queries, sliceIds), queries, |queries|);
  }

  lemma {:induction false} ByIdHas(queries: seq<Query>, id: string)
    ensures ById(queries, id).Some? ==> ById(queries, id).value.id == id
  {
    if queries != [] {
      ByIdHas(queries[..|queries| - 1], id);
    }
  }

  /** What a slice entry stands for is what its own identifier stands for in the file. */
  lemma ResolvedIsListed(queries: seq<Query>, id: string)
    ensures Resolve(queries, id).Some? ==> ById(queries, Resolve(queries, id).value.id) == Resolve(queries, id)
  {
    hide ById;
    ByIdHas(queries, id);
    var q := ById(queries, id);
    if q.Some? {
      ByIdHas(queries, q.value.duplicateOf);
    }
  }

  /** Some slice entry stands for the query. */
  ghost predicate Named(queries: seq<Query>, ids: seq<string>, q: Query) {
    exists k :: 0 <= k < |ids| && Resolve(queries, ids[k]) == Some(q)
  }

  lemma {:induction false} FromSlicesMembers(queries: seq<Query>, ids: seq<string>, q: Query)
    ensures q in FromSlices(queries, ids) <==> Named(queries, ids, q)
  {
    hide Resolve, Ids;
    if ids != [] {
      var n := |ids| - 1;
      var out, v := FromSlices(queries, ids[..n]), Resolve(queries, ids[n]);
      FromSlicesMembers(queries, ids[..n], q);
      NamedNext(queries, ids, n, q);
      if v.Some? {
        ResolvedIsListed(queries, ids[n]);
        AlreadyThere(queries, ids[..n], out, v.value);
      }
    }
  }

  lemma NamedNext(queries: seq<Query>, ids: seq<string>, n: nat, q: Query)
    requires |ids| == n + 1
    ensures Named(queries, ids, q) <==> Named(queries, ids[..n], q) || Resolve(queries, ids[n]) == Some(q)
  {
    hide Resolve;
    if Named(queries, ids[..n], q) {
      var k :| 0 <= k < n && Resolve(queries, ids[..n][k]) == Some(q);
      assert ids[k] == ids[..n][k];
    }
    if Named(queries, ids, q) {
      var k :| 0 <= k < |ids| && Resolve(queries, ids[k]) == Some(q);
      assert k < n ==> ids[k] == ids[..n][k];
    }
  }

  /** A query is left out for its identifier only when it is there itself. */
  lemma AlreadyThere(queries: seq<Query>, ids: seq<string>, out: seq<Query>, v: Query)
    requires out == FromSlices(queries, ids) && ById(queries, v.id) == Some(v)
    ensures v.id in Ids(out) ==> v in out
  {
    hide FromSlices, ById, Resolve;
    if v.id in Ids(out) {
      var i :| 0 <= i < |out| && out[i].id == v.id;
      SlicesAreListed(queries, ids, i);
    }
  }

  lemma {:induction false} SlicesAreListed(queries: seq<Query>, ids: seq<string>, i: nat)
    requires i < |FromSlices(queries, ids)|
    ensures ById(queries, FromSlices(queries, ids)[i].id) == Some(FromSlices(queries, ids)[i])
  {
    hide ById, Resolve, Ids;
    if ids != [] {
      var n := |ids| - 1;
      ResolvedIsListed(queries, ids[n]);
      if i < |FromSlices(queries, ids[..n])| {
        SlicesAreListed(queries, ids[..n], i);
      }
    }
  }

  lemma {:induction false} RestAddsOriginals(out: seq<Query>, queries: seq<Query>, k: nat, q: Query)
    requires k <= |queries| && q.duplicateOf != ""
    ensures q in WithRest(out, queries, k) <==> q in out
    decreases k
  {
    if k > 0 {
      RestAddsOriginals(out, queries, k - 1, q);
    }
  }

  lemma NamedBy(queries: seq<Query>, ids: seq<string>, k: nat)
    requires k < |ids| && Resolve(queries, ids[k]).Some?
    ensures Named(queries, ids, Resolve(queries, ids[k]).value)
  {
    hide Resolve;
  }

  /** No slice entry stands for a query that itself repeats another. */
  predicate OriginalSlices(queries: seq<Query>, sliceIds: seq<string>) {
    forall k :: 0 <= k < |sliceIds| && Resolve(queries, sliceIds[k]).Some? ==>
      Resolve(queries, sliceIds[k]).value.duplicateOf == ""
  }

  /** The draft's order is one on which draft and plan agree exactly when no slice entry stands for a duplicate. */
  lemma DraftCanonicalIff(queries: seq<Query>, sliceIds: seq<string>)
    ensures Canonical(DraftOrder(queries, sliceIds)) <==> OriginalSlices(queries, sliceIds)
  {
    hide Resolve, FromSlices, WithRest, Ids;
    var out := DraftOrder(queries, sliceIds);
    DraftOrderComplete(queries, sliceIds);
    forall q: Query | q.duplicateOf != "" ensures q in out <==> Named(queries, sliceIds, q) {
      FromSlicesMembers(queries, sliceIds, q);
      RestAddsOriginals(FromSlices(queries, sliceIds), queries, |queries|, q);
    }
    if Canonical(out) {
      forall k | 0 <= k < |sliceIds| && Resolve(queries, sliceIds[k]).Some?
        ensures Resolve(queries, sliceIds[k]).value.duplicateOf == ""
      {
        NamedBy(queries, sliceIds, k);
      }
    } else {
      var i :| 0 <= i < |out| && out[i].duplicateOf != "";
      assert out[i] in out;
    }
  }

  /** Named in that order, the draft's names are pairwise distinct and are the plan's. */
  lemma DraftOrderAgrees(queries: seq<Query>, sliceIds: seq<string>, i: nat, j: nat)
    requires OriginalSlices(queries, sliceIds)
    requires i < |DraftOrder(queries, sliceIds)| && j < |DraftOrder(queries, sliceIds)|
    ensures var out := DraftOrder(queries, sliceIds); var names := NamesUpTo(out, |out|).0;
            && out[i].id in names && names[out[i].id] == Assigned(Plans(out, map[]), map[])[i].name
            && (i != j ==> out[j].id in names && names[out[i].id] != names[out[j].id])
  {
    hide DraftOrder, NamesUpTo, Assigned, Resolve;
    DraftCanonicalIff(queries, sliceIds);
    var out := DraftOrder(queries, sliceIds);
    DraftAgreesWithPlan(out, i);
    if i != j {
      DraftDistinct(out, i, j);
    }
  }

  // ---------------------------------------------------------------- endpoint names

  /** A name unique among those taken: the base, the base with its token, or the base with a number. */
  function UniqueEndpoint(base: string, token: string, taken: set<string>): (name: string)
    ensures base == "" ==> name == ""
    ensures base != "" ==> name != "" && name !in taken && base <= name
  {
    if base == "" then ""
    else if base !in taken then base
    else if token != "" && base + token !in taken then base + token
    else Suffixed(base, FirstFree(base, taken, 2))
  }

  method UniqueEndpointName(base: string, token: string, taken: set<string>) returns (name: string, taken': set<string>)
    ensures name == UniqueEndpoint(base, token, taken)
    ensures taken' == if base == "" then taken else taken + {name}
  {
    if base == "" {
      return "", taken;
    }
    if base !in taken {
      return base, taken + {base};
    }
    if token != "" && base + token !in taken {
      return base + token, taken + {base + token};
    }
    var i: nat := 2;
    while true
      invariant i >= 2 && FirstFree(base, taken, 2) == FirstFree(base, taken, i)
      decreases |Untried(base, taken, i)|
    {
      var cand := base + Itoa(i);
      if cand !in taken {
        return cand, taken + {cand};
      }
      UntriedShrinks(base, taken, i);
      i := i + 1;
    }
  }

  /** Final names and taken set after the first `k` proposals. */
  function DedupeUpTo(names: seq<string>, tokens: seq<string>, k: nat): (r: (seq<string>, set<string>))
    requires k <= |names| && |tokens| == |names|
    ensures |r.0| == k
  {
    if k == 0 then ([], {})
    else
      var (out, taken) := DedupeUpTo(names, tokens, k - 1);
      var name := UniqueEndpoint(names[k - 1], tokens[k - 1], taken);
      (out + [name], if names[k - 1] == "" then taken else taken + {name})
  }

  function Deduped(names: seq<string>, tokens: seq<string>): (r: seq<string>)
    requires |tokens| == |names|
    ensures |r| == |names|
  {
    DedupeUpTo(names, tokens, |names|).0
  }

  method DedupeEndpointNames(names: array<string>, tokens: seq<string>)
    requires |tokens| == names.Length
    modifies names
    ensures names[..] == Deduped(old(names[..]), tokens)
  {
    ghost var was := names[..];
    var taken: set<string> := {};
    for k := 0 to names.Length
      invariant |was| == names.Length
      invariant (names[..k], taken) == DedupeUpTo(was, tokens, k)
      invariant names[k..] == was[k..]
    {
      hide UniqueEndpoint;
      var base := names[k];
      assert base == was[k..][0];
      ghost var rest := was[k + 1..];
      assert names[k + 1..] == names[k..][1..] == was[k..][1..] == rest;
      ghost var done := names[..k];
      var name, taken' := UniqueEndpointName(base, tokens[k], taken);
      taken := taken';
      if name != base {
        names[k] := name;
      }
      assert names[..k] == done;
      assert names[..k + 1] == done + [name];
      assert names[k + 1..] == rest;
    }
    assert names[..names.Length] == names[..];
  }

  /** What is taken is what was given out: a name is taken exactly when it is a non-empty final name so far. */
  lemma {:induction false} TakenAreFinal(names: seq<string>, tokens: seq<string>, k: nat, x: string)
    requires k <= |names| && |tokens| == |names|
    ensures var (out, taken) := DedupeUpTo(names, tokens, k);
            x in taken <==> x != "" && exists i: nat :: i < k && out[i] == x
    decreases k
  {
    hide UniqueEndpoint;
    if k > 0 {
      TakenAreFinal(names, tokens, k - 1, x);
      var (out, taken) := DedupeUpTo(names, tokens, k - 1);
      var name := UniqueEndpoint(names[k - 1], tokens[k - 1], taken);
      EmptyStaysEmpty(names[k - 1], tokens[k - 1], taken);
      AmongNext(out, name, x);
    }
  }

  lemma EmptyStaysEmpty(base: string, token: string, taken: set<string>)
    ensures UniqueEndpoint(base, token, taken) == "" <==> base == ""
  {
  }

  lemma AmongNext(out: seq<string>, name: string, x: string)
    ensures (exists i: nat :: i < |out| + 1 && (out + [name])[i] == x) <==> (exists i: nat :: i < |out| && out[i] == x) || x == name
  {
    var r := out + [name];
    if i: nat :| i < |out| && out[i] == x {
      assert r[i] == x;
    }
    assert r[|out|] == name;
  }

  lemma {:induction false} DedupeStep(names: seq<string>, tokens: seq<string>, i: nat, k: nat)
    requires i < k <= |names| && |tokens| == |names|
    ensures DedupeUpTo(names, tokens, k).0[i] == UniqueEndpoint(names[i], tokens[i], DedupeUpTo(names, tokens, i).1)
    ensures DedupeUpTo(names, tokens, k).0[..i] == DedupeUpTo(names, tokens, i).0
    decreases k
  {
    hide UniqueEndpoint;
    if i < k - 1 {
      DedupeStep(names, tokens, i, k - 1);
    }
  }

  /** Final names that are not empty are pairwise distinct; empty proposals stay empty and others do not become so. */
  lemma DedupedDistinct(names: seq<string>, tokens: seq<string>, i: nat, j: nat)
    requires |tokens| == |names| && i < j < |names|
    ensures var out := Deduped(names, tokens);
            && (out[i] == "" <==> names[i] == "")
            && (out[j] != "" ==> out[i] != out[j])
  {
    DedupeStep(names, tokens, i, |names|);
    DedupeStep(names, tokens, j, |names|);
    DedupeStep(names, tokens, i, j);
    var out := DedupeUpTo(names, tokens, j).0;
    TakenAreFinal(names, tokens, j, out[i]);
    hide UniqueEndpoint;
    assert Deduped(names, tokens)[i] == out[i];
  }

  /** The first entry to propose a name. */
  predicate FirstProposer(names: seq<string>, k: nat)
    requires k < |names|
  {
    names[k] != "" && forall i :: 0 <= i < k ==> names[i] != names[k]
  }

  /** An entry whose name a renamed collision can take: two earlier entries propose one proper prefix of it. */
  predicate Capturable(names: seq<string>, k: nat)
    requires k < |names|
  {
    exists i, j :: 0 <= i < j < k && names[i] == names[j] && names[i] != "" && names[i] != names[k] && names[i] <= names[k]
  }

  lemma KeepsIff(names: seq<string>, tokens: seq<string>, k: nat)
    requires |tokens| == |names| && k < |names| && names[k] != ""
    ensures Deduped(names, tokens)[k] == names[k] <==>
            forall i: nat :: i < k ==> DedupeUpTo(names, tokens, k).0[i] != names[k]
  {
    DedupeStep(names, tokens, k, |names|);
    TakenAreFinal(names, tokens, k, names[k]);
    var taken := DedupeUpTo(names, tokens, k).1;
    if names[k] in taken {
      RenamedDiffers(names[k], tokens[k], taken);
    }
    hide UniqueEndpoint;
  }

  lemma RenamedDiffers(base: string, token: string, taken: set<string>)
    requires base != "" && base in taken
    ensures UniqueEndpoint(base, token, taken) != base
  {
  }

  /** A first proposer keeps its name whatever the tokens, exactly when no two earlier entries collide on a
      proper prefix of it. */
  lemma FirstProposerKeepsIff(names: seq<string>, k: nat)
    requires k < |names| && FirstProposer(names, k)
    ensures (forall tokens: seq<string> :: |tokens| == |names| ==> Deduped(names, tokens)[k] == names[k]) <==> !Capturable(names, k)
  {
    hide Deduped;
    if Capturable(names, k) {
      var i, j :| 0 <= i < j < k && names[i] == names[j] && names[i] != "" && names[i] != names[k] && names[i] <= names[k];
      var tokens := Captured(names, i, j, k);
      assert |tokens| == |names| && Deduped(names, tokens)[k] != names[k];
    } else {
      forall tokens: seq<string> | |tokens| == |names| ensures Deduped(names, tokens)[k] == names[k] {
        FirstKeeps(names, tokens, k);
      }
    }
  }

  /** Tokens under which a renamed collision takes the later entry's name. */
  lemma Captured(names: seq<string>, i: nat, j: nat, k: nat) returns (tokens: seq<string>)
    requires i < j < k < |names| && names[i] == names[j] != "" && names[i] != names[k] && names[i] <= names[k]
    ensures |tokens| == |names| && Deduped(names, tokens)[k] != names[k]
  {
    var base := names[i];
    var rest := names[k][|base|..];
    tokens := seq(|names|, _ => rest);
    assert base + rest == names[k] && rest != "";
    DedupeStep(names, tokens, i, j);
    var (out, taken) := DedupeUpTo(names, tokens, j);
    BaseTaken(names, tokens, i, j);
    TakenAreFinal(names, tokens, j, names[k]);
    KeepsIff(names, tokens, k);
    DedupeStep(names, tokens, j, k);
    var out' := DedupeUpTo(names, tokens, k).0;
    assert out'[..j] == out;
    if names[k] !in taken {
      assert out'[j] == names[k];
    } else {
      var m: nat :| m < j && out[m] == names[k];
      assert out'[m] == names[k];
    }
  }

  /** Once proposed, a name is taken: by its proposer or by whoever had it before. */
  lemma BaseTaken(names: seq<string>, tokens: seq<string>, i: nat, j: nat)
    requires i < j <= |names| && |tokens| == |names| && names[i] != ""
    ensures names[i] in DedupeUpTo(names, tokens, j).1
    decreases j
  {
    if i < j - 1 {
      BaseTaken(names, tokens, i, j - 1);
    } else {
      var taken := DedupeUpTo(names, tokens, i).1;
      assert names[i] in taken || UniqueEndpoint(names[i], tokens[i], taken) == names[i];
    }
  }

  /** Without such a collision no earlier final name is the first proposer's. */
  lemma FirstKeeps(names: seq<string>, tokens: seq<string>, k: nat)
    requires |tokens| == |names| && k < |names| && FirstProposer(names, k) && !Capturable(names, k)
    ensures Deduped(names, tokens)[k] == names[k]
  {
    KeepsIff(names, tokens, k);
    forall i: nat | i < k ensures DedupeUpTo(names, tokens, k).0[i] != names[k] {
      NotCaptured(names, tokens, k, i);
    }
  }

  /** An entry that was renamed comes after two earlier or equal entries that collide on a prefix of its name. */
  lemma {:induction false} RenamedCollides(names: seq<string>, tokens: seq<string>, m: nat) returns (a: nat, b: nat)
    requires |tokens| == |names| && m < |names| && names[m] != ""
    requires UniqueEndpoint(names[m], tokens[m], DedupeUpTo(names, tokens, m).1) != names[m]
    ensures a < b <= m && names[a] == names[b] && names[a] != "" && names[a] <= names[m]
    decreases m
  {
    var (out, taken) := DedupeUpTo(names, tokens, m);
    assert names[m] in taken;
    TakenAreFinal(names, tokens, m, names[m]);
    var m': nat :| m' < m && out[m'] == names[m];
    DedupeStep(names, tokens, m', m);
    if names[m'] == names[m] {
      a, b := m', m;
    } else {
      a, b := RenamedCollides(names, tokens, m');
    }
  }

  lemma NotCaptured(names: seq<string>, tokens: seq<string>, k: nat, i: nat)
    requires |tokens| == |names| && i < k < |names| && FirstProposer(names, k) && !Capturable(names, k)
    ensures DedupeUpTo(names, tokens, k).0[i] != names[k]
  {
    DedupeStep(names, tokens, i, k);
    var taken := DedupeUpTo(names, tokens, i).1;
    if UniqueEndpoint(names[i], tokens[i], taken) == names[k] {
      var a, b := RenamedCollides(names, tokens, i);
    }
  }

  // ---------------------------------------------------------------- row names

  /** A suggested row name for a query; unknown queries have no shape. */
  datatype RowPin = RowPin(row: string, shape: Option<seq<string>>)

  function Fingerprint(shape: seq<string>): string {
    JoinOn(shape, '|')
  }

  /** Final row names, and the fingerprint each name is claimed with, after the first `k` pins. */
  function RowsUpTo(pins: seq<RowPin>, k: nat): (r: (seq<string>, map<string, string>))
    requires k <= |pins|
    ensures |r.0| == k
  {
    if k == 0 then ([], map[])
    else
      var (out, shapes) := RowsUpTo(pins, k - 1);
      var pin := pins[k - 1];
      if pin.row == "" || pin.shape.None? then (out + [pin.row], shapes)
      else
        var fp := Fingerprint(pin.shape.value);
        if pin.row in shapes then (out + [if shapes[pin.row] == fp then pin.row else ""], shapes)
        else (out + [pin.row], shapes[pin.row := fp])
  }

  method DedupeRowNames(pins: array<RowPin>)
    modifies pins
    ensures pins.Length == |old(pins[..])|
    ensures forall i :: 0 <= i < pins.Length ==>
              pins[i] == old(pins[..])[i].(row := RowsUpTo(old(pins[..]), pins.Length).0[i])
  {
    ghost var was := pins[..];
    var shapes: map<string, string> := map[];
    for k := 0 to pins.Length
      invariant |was| == pins.Length
      invariant shapes == RowsUpTo(was, k).1
      invariant forall i :: 0 <= i < k ==> pins[i] == was[i].(row := RowsUpTo(was, k).0[i])
      invariant forall i :: k <= i < pins.Length ==> pins[i] == was[i]
    {
      hide Fingerprint;
      var pin := pins[k];
      if pin.row == "" || pin.shape.None? {
        continue;
      }
      var fp := Fingerprint(pin.shape.value);
      if pin.row in shapes {
        if shapes[pin.row] != fp {
          pins[k] := pin.(row := "");
        }
        continue;
      }
      shapes := shapes[pin.row := fp];
    }
  }

  lemma {:induction false} RowStep(pins: seq<RowPin>, i: nat, k: nat)
    requires i < k <= |pins| && pins[i].shape.Some?
    ensures var (out, shapes) := RowsUpTo(pins, k);
            && (out[i] == "" || out[i] == pins[i].row)
            && (out[i] != "" ==> out[i] in shapes && shapes[out[i]] == Fingerprint(pins[i].shape.value))
            && ((forall j :: 0 <= j < i ==> pins[j].row != pins[i].row) ==> out[i] == pins[i].row)
    decreases k
  {
    hide Fingerprint;
    if i < k - 1 {
      RowStep(pins, i, k - 1);
      var (out, shapes) := RowsUpTo(pins, k);
      assert out[i] == RowsUpTo(pins, k - 1).0[i];
    } else {
      RowClaimed(pins, i);
    }
  }

  lemma {:induction false} RowClaimed(pins: seq<RowPin>, k: nat)
    requires k <= |pins|
    ensures forall x :: x in RowsUpTo(pins, k).1 ==> exists j :: 0 <= j < k && pins[j].row == x
    decreases k
  {
    hide Fingerprint;
    if k > 0 {
      RowClaimed(pins, k - 1);
    }
  }

  /** Queries that end with the same row name have rows of the same columns; the first to claim a name keeps it. */
  lemma SharedRowsAgree(pins: seq<RowPin>, i: nat, j: nat)
    requires i < |pins| && j < |pins| && pins[i].shape.Some? && pins[j].shape.Some?
    requires pins[i].shape.value != [] && AllWithout(pins[i].shape.value, '|')
    requires pins[j].shape.value != [] && AllWithout(pins[j].shape.value, '|')
    ensures var out := RowsUpTo(pins, |pins|).0;
            && (out[i] != "" && out[i] == out[j] ==> pins[i].shape == pins[j].shape)
            && ((forall m :: 0 <= m < i ==> pins[m].row != pins[i].row) ==> out[i] == pins[i].row)
  {
    RowStep(pins, i, |pins|);
    RowStep(pins, j, |pins|);
    SplitJoinOn(pins[i].shape.value, '|');
    SplitJoinOn(pins[j].shape.value, '|');
    hide SplitOn, JoinOn, RowsUpTo;
  }
}
