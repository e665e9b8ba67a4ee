/** Packing statement units into fragments under a slice budget. */
module Packer {
  import opened Text
  import opened Slicer

  /** What a unit is charged: its text, its joining newline and the prompt extras it calls for. */
  function Weight(sig: string -> nat, unit: string): nat {
    |unit| + 1 + sig(unit)
  }

  function Mass(sig: string -> nat, units: seq<string>): nat {
    if units == [] then 0 else Mass(sig, units[..|units| - 1]) + Weight(sig, units[|units| - 1])
  }

  /** The same charge for every unit. */
  function Flat(charge: nat): string -> nat {
    unit => charge
  }

  /** Hard budget per fragment, number of fragments aimed at, and the balanced target mass. */
  datatype Plan = Plan(budget: nat, n: nat, target: nat)

  function PlanOf(count: nat, total: nat, sliceBudget: int): (p: Plan)
    requires count > 0
    ensures p.budget >= 1 && 1 <= p.n <= count && p.target >= 1
  {
    var budget := if sliceBudget < 1 then 1 else sliceBudget;
    var least := (total + budget - 1) / budget;
    var atLeastOne := if least < 1 then 1 else least;
    var n := if atLeastOne > count then count else atLeastOne;
    Plan(budget, n, if total / n < 1 then 1 else total / n)
  }

  /** Closed groups of units, the open group, and the mass of the open group. */
  datatype Packing = Packing(groups: seq<seq<string>>, cur: seq<string>, chars: nat)

  const NOTHING := Packing([], [], 0)

  /** Whether the open group is closed before a unit of weight `w`. With `capped` the source's rule: no cut
      once the aimed number of groups is reached. Without it the budget is enforced whatever the count. */
  predicate Cuts(p: Plan, s: Packing, w: nat, capped: bool) {
    var more := |s.groups| + 1 < p.n;
    && s.cur != []
    && ((s.chars + w > p.budget && (more || !capped)) || (s.chars + w > p.target && more && s.chars >= p.target / 2))
  }

  function PackOne(p: Plan, s: Packing, u: string, w: nat, capped: bool): Packing {
    if Cuts(p, s, w, capped) then Packing(s.groups + [s.cur], [u], w) else Packing(s.groups, s.cur + [u], s.chars + w)
  }

  function Pack(p: Plan, sig: string -> nat, units: seq<string>, capped: bool): Packing {
    if units == [] then NOTHING
    else
      var u := units[|units| - 1];
      PackOne(p, Pack(p, sig, units[..|units| - 1], capped), u, Weight(sig, u), capped)
  }

  function GroupsOf(units: seq<string>, sliceBudget: int, sig: string -> nat, capped: bool): seq<seq<string>> {
    if units == [] then []
    else
      var s := Pack(PlanOf(|units|, Mass(sig, units), sliceBudget), sig, units, capped);
      s.groups + [s.cur]
  }

  /** The source's packing. */
  function Groups(units: seq<string>, sliceBudget: int, sig: string -> nat): seq<seq<string>> {
    GroupsOf(units, sliceBudget, sig, true)
  }

  /** The packing that never lets a group outgrow the budget. */
  function HardGroups(units: seq<string>, sliceBudget: int, sig: string -> nat): seq<seq<string>> {
    GroupsOf(units, sliceBudget, sig, false)
  }

  function JoinEach(groups: seq<seq<string>>): seq<string> {
    seq(|groups|, k requires 0 <= k < |groups| => JoinLines(groups[k]))
  }

  lemma JoinEachNext(groups: seq<seq<string>>, g: seq<string>)
    ensures JoinEach(groups + [g]) == JoinEach(groups) + [JoinLines(g)]
  {
    hide JoinLines;
  }

  lemma MassNext(sig: string -> nat, units: seq<string>, i: nat)
    requires i < |units|
    ensures Mass(sig, units[..i + 1]) == Mass(sig, units[..i]) + Weight(sig, units[i])
  {
    assert units[..i + 1][..i] == units[..i];
  }

  lemma PackNext(p: Plan, sig: string -> nat, units: seq<string>, i: nat)
    requires i < |units|
    ensures Pack(p, sig, units[..i + 1], true) ==
            PackOne(p, Pack(p, sig, units[..i], true), units[i], Weight(sig, units[i]), true)
  {
    assert units[..i + 1][..i] == units[..i];
  }

  method WeighUnits(units: seq<string>, sig: string -> nat) returns (weights: seq<nat>, total: nat)
    ensures |weights| == |units| && forall k :: 0 <= k < |units| ==> weights[k] == Weight(sig, units[k])
    ensures total == Mass(sig, units)
  {
    weights, total := [], 0;
    for i := 0 to |units|
      invariant |weights| == i && forall k :: 0 <= k < i ==> weights[k] == Weight(sig, units[k])
      invariant total == Mass(sig, units[..i])
    {
      MassNext(sig, units, i);
      var w := |units[i]| + 1 + sig(units[i]);
      weights, total := weights + [w], total + w;
    }
    assert units[..|units|] == units;
  }

  /** `n` fragments of `budget` hold the mass and no fewer would, as far as there are units to fill them, and
      `n` fragments of `target` hold it but for less than one of them each. */
  ghost predicate AimsAt(count: nat, total: nat, budget: nat, n: nat, target: nat) {
    && 1 <= n <= count && target >= 1
    && (n == count || n * budget >= total) && (n == 1 || (n - 1) * budget < total)
    && total < n * target + n && (total >= n ==> n * target <= total) && (total < n ==> target == 1)
  }

  lemma CeilIsLeast(total: nat, budget: nat, q: nat)
    requires budget > 0 && q == (total + budget - 1) / budget
    ensures q * budget >= total && (q > 0 ==> (q - 1) * budget < total)
  {
    var r := (total + budget - 1) % budget;
    assert total + budget - 1 == q * budget + r;
    assert q > 0 ==> (q - 1) * budget == q * budget - budget;
  }

  lemma QuotientBounds(total: nat, n: nat, t: nat)
    requires n > 0 && t == total / n
    ensures n * t <= total < n * t + n && (t < 1 <==> total < n)
  {
    assert total == n * t + total % n;
    if total < n && t >= 1 {
      MulMono(1, t, n);
    }
    if t < 1 {
      assert n * t == 0;
    }
  }

  lemma ClampedCount(count: nat, total: nat, budget: nat, least: nat, n: nat)
    requires count > 0 && least * budget >= total && (least > 0 ==> (least - 1) * budget < total)
    requires n == if (if least < 1 then 1 else least) > count then count else if least < 1 then 1 else least
    ensures 1 <= n <= count && (n == count || n * budget >= total) && (n == 1 || (n - 1) * budget < total)
  {
    if n > 1 {
      MulMono(n - 1, least - 1, budget);
    }
    if n < count {
      MulMono(least, n, budget);
    }
  }

  lemma ClampedTarget(total: nat, n: nat, t: nat, target: nat)
    requires n > 0 && n * t <= total < n * t + n && target == if t < 1 then 1 else t
    requires t < 1 <==> total < n
    ensures total < n * target + n && (total >= n ==> n * target <= total) && (total < n ==> target == 1)
  {
  }

  lemma PlanAims(count: nat, total: nat, sliceBudget: int)
    requires count > 0
    ensures var p := PlanOf(count, total, sliceBudget);
            p.budget == (if sliceBudget < 1 then 1 else sliceBudget) && AimsAt(count, total, p.budget, p.n, p.target)
  {
    var p := PlanOf(count, total, sliceBudget);
    hide AimsAt;
    AimsOf(count, total, p.budget, (total + p.budget - 1) / p.budget, p.n, total / p.n, p.target);
  }

  lemma AimsOf(count: nat, total: nat, budget: nat, least: nat, n: nat, t: nat, target: nat)
    requires count > 0 && budget > 0 && n > 0 && least == (total + budget - 1) / budget && t == total / n
    requires n == if (if least < 1 then 1 else least) > count then count else if least < 1 then 1 else least
    requires target == if t < 1 then 1 else t
    ensures AimsAt(count, total, budget, n, target)
  {
    CeilIsLeast(total, budget, least);
    ClampedCount(count, total, budget, least, n);
    QuotientBounds(total, n, t);
    ClampedTarget(total, n, t, target);
  }

  /** Only one number of fragments and one target meet that description. */
  lemma AimUnique(count: nat, total: nat, budget: nat, n: nat, target: nat, n': nat, target': nat)
    requires AimsAt(count, total, budget, n, target) && AimsAt(count, total, budget, n', target')
    ensures n == n' && target == target'
  {
    if n < n' {
      MulMono(n, n' - 1, budget);
    } else if n' < n {
      MulMono(n', n - 1, budget);
    } else if total >= n {
      TargetUnique(total, n, target, target');
      TargetUnique(total, n, target', target);
    }
  }

  lemma TargetUnique(total: nat, n: nat, a: nat, b: nat)
    requires total < n * a + n && n * b <= total
    ensures b <= a
  {
    assert (a + 1) * n == n * a + n && b * n == n * b;
    MulOrder(a + 1, b, n);
  }

  lemma MulOrder(a: nat, b: nat, c: nat)
    ensures a <= b ==> a * c <= b * c
  {
    if a <= b {
      MulMono(a, b, c);
    }
  }

  /** Number of fragments aimed at and their balanced mass. */
  method AimFor(count: nat, total: nat, budget: nat) returns (n: nat, target: nat)
    requires count > 0 && budget > 0
    ensures AimsAt(count, total, budget, n, target)
    ensures Plan(budget, n, target) == PlanOf(count, total, budget)
  {
    hide AimsAt;
    PlanAims(count, total, budget);
    n := (total + budget - 1) / budget;
    if n < 1 {
      n := 1;
    }
    if n > count {
      n := count;
    }
    target := total / n;
    if target < 1 {
      target := 1;
    }
  }

  method GroupFragments(units: seq<string>, sliceBudget: int, sig: string -> nat) returns (chunks: seq<string>)
    ensures chunks == JoinEach(Groups(units, sliceBudget, sig))
  {
    chunks := [];
    if |units| == 0 {
      return;
    }
    var budget: nat := if sliceBudget < 1 then 1 else sliceBudget;
    var weights, total := WeighUnits(units, sig);
    var n, target := AimFor(|units|, total, budget);
    ghost var p := PlanOf(|units|, Mass(sig, units), sliceBudget);
    if |units| == 1 {
      OneGroup(units, sliceBudget, sig);
      return [units[0]];
    }
    var cur: seq<string> := [];
    var curChars: nat := 0;
    ghost var groups: seq<seq<string>> := [];
    assert p == Plan(budget, n, target);
    hide *;
    NothingYet(p, sig, units);
    for i := 0 to |units|
      invariant Packing(groups, cur, curChars) == Pack(p, sig, units[..i], true)
      invariant chunks == JoinEach(groups) && |chunks| == |groups| && (i > 0 ==> cur != [])
    {
      PackTurn(p, sig, units, i, groups, cur, curChars);
      var overBudget := |cur| > 0 && curChars + weights[i] > budget && |chunks| + 1 < n;
      var overTarget := |cur| > 0 && curChars + weights[i] > target && |chunks| + 1 < n;
      if overBudget || (overTarget && curChars >= target / 2) {
        JoinEachNext(groups, cur);
        chunks := chunks + [JoinLines(cur)];
        groups := groups + [cur];
        cur := [];
        curChars := 0;
      }
      assert [] + [units[i]] == [units[i]];
      cur := cur + [units[i]];
      curChars := curChars + weights[i];
    }
    if |cur| > 0 {
      JoinEachNext(groups, cur);
      chunks := chunks + [JoinLines(cur)];
    }
    GroupsAre(units, sliceBudget, sig, Packing(groups, cur, curChars));
  }

  /** The loop's two cut tests are the packing's. */
  lemma PackTurn(p: Plan, sig: string -> nat, units: seq<string>, i: nat, groups: seq<seq<string>>, cur: seq<string>, chars: nat)
    requires i < |units| && Packing(groups, cur, chars) == Pack(p, sig, units[..i], true)
    ensures var u, w := units[i], Weight(sig, units[i]);
            var overBudget := |cur| > 0 && chars + w > p.budget && |groups| + 1 < p.n;
            var overTarget := |cur| > 0 && chars + w > p.target && |groups| + 1 < p.n;
            Pack(p, sig, units[..i + 1], true) ==
            if overBudget || (overTarget && chars >= p.target / 2) then Packing(groups + [cur], [u], w)
            else Packing(groups, cur + [u], chars + w)
  {
    hide Pack, Weight;
    PackNext(p, sig, units, i);
  }

  lemma NothingYet(p: Plan, sig: string -> nat, units: seq<string>)
    ensures Pack(p, sig, units[..0], true) == NOTHING && JoinEach([]) == []
  {
  }

  lemma GroupsAre(units: seq<string>, sliceBudget: int, sig: string -> nat, s: Packing)
    requires units != []
    requires s == Pack(PlanOf(|units|, Mass(sig, units), sliceBudget), sig, units[..|units|], true)
    ensures Groups(units, sliceBudget, sig) == s.groups + [s.cur]
  {
    hide Pack, PlanOf, Mass;
    assert units[..|units|] == units;
  }

  /** A lone unit is its own fragment, whatever it weighs. */
  lemma OneGroup(units: seq<string>, sliceBudget: int, sig: string -> nat)
    requires |units| == 1
    ensures JoinEach(Groups(units, sliceBudget, sig)) == [units[0]]
  {
    hide PlanOf, Mass;
    var p := PlanOf(|units|, Mass(sig, units), sliceBudget);
    assert units[..0] == [] && units == [units[0]];
    assert Pack(p, sig, units, true) == Packing([], [units[0]], Weight(sig, units[0])) by {
      assert Pack(p, sig, units[..0], true) == NOTHING;
      assert [] + [units[0]] == units;
    }
    assert Groups(units, sliceBudget, sig) == [] + [units] == [units];
  }

  // ---------------------------------------------------------------- what a packing keeps

  function Flatten(groups: seq<seq<string>>): seq<string> {
    if groups == [] then [] else Flatten(groups[..|groups| - 1]) + groups[|groups| - 1]
  }

  ghost predicate NoneEmpty(groups: seq<seq<string>>) {
    forall k :: 0 <= k < |groups| ==> groups[k] != []
  }

  /** Within the budget, or a single unit that cannot be cut. */
  predicate Fits(sig: string -> nat, budget: nat, group: seq<string>) {
    Mass(sig, group) <= budget || |group| <= 1
  }

  lemma FlattenNext(groups: seq<seq<string>>, g: seq<string>)
    ensures Flatten(groups + [g]) == Flatten(groups) + g
  {
    assert (groups + [g])[..|groups|] == groups;
  }

  lemma MassOne(sig: string -> nat, cur: seq<string>, u: string)
    ensures Mass(sig, cur + [u]) == Mass(sig, cur) + Weight(sig, u)
  {
    assert (cur + [u])[..|cur|] == cur;
  }

  /** What holds after every unit of the packing loop. */
  ghost predicate PackedSoFar(p: Plan, sig: string -> nat, units: seq<string>, s: Packing) {
    && Flatten(s.groups) + s.cur == units && NoneEmpty(s.groups) && (units != [] ==> s.cur != [])
    && s.chars == Mass(sig, s.cur)
  }

  ghost predicate AllFit(p: Plan, sig: string -> nat, s: Packing) {
    forall k :: 0 <= k < |s.groups| ==> Fits(sig, p.budget, s.groups[k])
  }

  lemma NothingPacked(p: Plan, sig: string -> nat)
    ensures PackedSoFar(p, sig, [], NOTHING)
  {
  }

  lemma PackOneKeeps(p: Plan, sig: string -> nat, units: seq<string>, s: Packing, u: string, capped: bool)
    requires PackedSoFar(p, sig, units, s)
    ensures PackedSoFar(p, sig, units + [u], PackOne(p, s, u, Weight(sig, u), capped))
  {
    hide Weight;
    FlattenNext(s.groups, s.cur);
    MassOne(sig, s.cur, u);
    MassOne(sig, [], u);
    assert [] + [u] == [u];
    assert Flatten(s.groups) + (s.cur + [u]) == units + [u];
  }

  /** The units survive in order, cut into non-empty groups whose mass is what the loop counted. */
  lemma {:induction false} PackKeeps(p: Plan, sig: string -> nat, units: seq<string>, capped: bool)
    ensures PackedSoFar(p, sig, units, Pack(p, sig, units, capped))
  {
    hide PackOne, PackedSoFar, Weight;
    if units == [] {
      NothingPacked(p, sig);
    } else {
      var n := |units| - 1;
      PackKeeps(p, sig, units[..n], capped);
      PackOneKeeps(p, sig, units[..n], Pack(p, sig, units[..n], capped), units[n], capped);
      assert units == units[..n] + [units[n]];
    }
  }

  lemma PackOneFits(p: Plan, sig: string -> nat, units: seq<string>, s: Packing, u: string, capped: bool)
    requires PackedSoFar(p, sig, units, s) && AllFit(p, sig, s)
    requires capped ==> p.n >= 1 && |s.groups| < p.n
    requires |s.groups| + 1 < p.n || !capped ==> Fits(sig, p.budget, s.cur)
    ensures var r := PackOne(p, s, u, Weight(sig, u), capped);
            && AllFit(p, sig, r) && (capped ==> |r.groups| < p.n)
            && (|r.groups| + 1 < p.n || !capped ==> Fits(sig, p.budget, r.cur))
  {
    hide Weight, Mass;
    MassOne(sig, s.cur, u);
  }

  /** Closed groups always fit; the open one does too unless it is the last the cap allows. */
  lemma {:induction false} PackFits(p: Plan, sig: string -> nat, units: seq<string>, capped: bool)
    requires p.n >= 1
    ensures var s := Pack(p, sig, units, capped);
            && AllFit(p, sig, s) && (capped ==> |s.groups| < p.n)
            && (|s.groups| + 1 < p.n || !capped ==> Fits(sig, p.budget, s.cur))
  {
    if units != [] {
      var n := |units| - 1;
      PackFits(p, sig, units[..n], capped);
      PackKeeps(p, sig, units[..n], capped);
      PackOneFits(p, sig, units[..n], Pack(p, sig, units[..n], capped), units[n], capped);
    }
  }

  /** Every unit is in exactly one group, in order, no group is empty, and a group over the budget is a single
      unit or the last one the cap allows. */
  lemma GroupsPack(units: seq<string>, sliceBudget: int, sig: string -> nat)
    requires units != []
    ensures var gs, p := Groups(units, sliceBudget, sig), PlanOf(|units|, Mass(sig, units), sliceBudget);
            && Flatten(gs) == units && NoneEmpty(gs) && 1 <= |gs| <= p.n
            && forall k :: 0 <= k < |gs| ==> Fits(sig, p.budget, gs[k]) || (k == |gs| - 1 && |gs| == p.n)
  {
    hide Mass, Pack, Fits, PlanOf;
    var p := PlanOf(|units|, Mass(sig, units), sliceBudget);
    var s := Pack(p, sig, units, true);
    PackKeeps(p, sig, units, true);
    PackFits(p, sig, units, true);
    FlattenNext(s.groups, s.cur);
  }

  /** There are no more groups than units, nor more than the least number that could hold the mass. */
  lemma FewGroups(units: seq<string>, sliceBudget: int, sig: string -> nat)
    requires units != []
    ensures var m, budget := |Groups(units, sliceBudget, sig)|, if sliceBudget < 1 then 1 else sliceBudget;
            m <= |units| && (m - 1) * budget < Mass(sig, units)
  {
    hide Groups;
    GroupsPack(units, sliceBudget, sig);
    MassPositive(sig, units);
    var budget := if sliceBudget < 1 then 1 else sliceBudget;
    var p := PlanOf(|units|, Mass(sig, units), sliceBudget);
    LeastCount(Mass(sig, units), budget, p.n - 1);
    MulMono(|Groups(units, sliceBudget, sig)| - 1, p.n - 1, budget);
  }

  lemma MassPositive(sig: string -> nat, units: seq<string>)
    requires units != []
    ensures Mass(sig, units) >= 1
  {
  }

  lemma MulMono(a: nat, b: nat, c: nat)
    requires a <= b
    ensures a * c <= b * c
  {
  }

  lemma LeastCount(total: nat, budget: nat, m: nat)
    requires total >= 1 && budget >= 1 && m < (total + budget - 1) / budget
    ensures m * budget < total
  {
    var q := (total + budget - 1) / budget;
    assert q * budget <= total + budget - 1;
    MulMono(m + 1, q, budget);
    assert (m + 1) * budget == m * budget + budget;
  }

  // ---------------------------------------------------------------- is the budget hard?

  /** Until the cap bites the two packings agree; once the hard one goes beyond it, the capped one is stuck
      with an open group of several units over the budget. */
  lemma {:induction false} CapBites(p: Plan, sig: string -> nat, units: seq<string>)
    requires p.n >= 1
    ensures var a, b := Pack(p, sig, units, true), Pack(p, sig, units, false);
            if |b.groups| < p.n then a == b else |a.groups| == p.n - 1 && |a.cur| > 1 && a.chars > p.budget
  {
    hide Weight;
    if units != [] {
      var n := |units| - 1;
      CapBites(p, sig, units[..n]);
      PackKeeps(p, sig, units[..n], true);
    }
  }

  /** The budget is kept exactly when the packing that always enforces it needs no more groups than planned. */
  lemma BudgetHardIff(units: seq<string>, sliceBudget: int, sig: string -> nat)
    requires units != []
    ensures var p := PlanOf(|units|, Mass(sig, units), sliceBudget);
            (forall k :: 0 <= k < |Groups(units, sliceBudget, sig)| ==> Fits(sig, p.budget, Groups(units, sliceBudget, sig)[k]))
            <==> |HardGroups(units, sliceBudget, sig)| <= p.n
  {
    var p := PlanOf(|units|, Mass(sig, units), sliceBudget);
    CapBites(p, sig, units);
    PackFits(p, sig, units, false);
    PackFits(p, sig, units, true);
    PackKeeps(p, sig, units, true);
    var a, b, gs := Pack(p, sig, units, true), Pack(p, sig, units, false), Groups(units, sliceBudget, sig);
    assert gs[|gs| - 1] == a.cur;
    assert forall k :: 0 <= k < |a.groups| ==> gs[k] == a.groups[k];
  }

  lemma {:induction false} FlattenMembers(groups: seq<seq<string>>, u: string)
    ensures u in Flatten(groups) <==> exists k :: 0 <= k < |groups| && u in groups[k]
  {
    if groups != [] {
      var n := |groups| - 1;
      FlattenMembers(groups[..n], u);
      if k :| 0 <= k < n && u in groups[..n][k] {
        assert u in groups[k];
      }
      if k :| 0 <= k < |groups| && u in groups[k] {
        assert k < n ==> u in groups[..n][k];
      }
    }
  }

  lemma {:induction false} WeightInMass(sig: string -> nat, group: seq<string>, u: string)
    requires u in group
    ensures Weight(sig, u) <= Mass(sig, group)
  {
    hide Weight;
    var n := |group| - 1;
    if u != group[n] {
      assert u in group[..n];
      WeightInMass(sig, group[..n], u);
    }
  }

  lemma GroupWithinIff(sig: string -> nat, budget: nat, group: seq<string>)
    requires group != []
    ensures Mass(sig, group) <= budget <==> Fits(sig, budget, group) && forall u :: u in group ==> Weight(sig, u) <= budget
  {
    hide Weight, Mass;
    if Mass(sig, group) <= budget {
      forall u | u in group ensures Weight(sig, u) <= budget {
        WeightInMass(sig, group, u);
      }
    }
    if |group| == 1 {
      assert group == [group[0]];
      MassOfOne(sig, group[0]);
    }
  }

  /** Every group is within the budget exactly when the packing that always enforces it needs no more groups than
      planned and no unit alone outweighs it. */
  lemma GroupsWithinIff(units: seq<string>, sliceBudget: int, sig: string -> nat)
    requires units != []
    ensures var gs, p := Groups(units, sliceBudget, sig), PlanOf(|units|, Mass(sig, units), sliceBudget);
            (forall k :: 0 <= k < |gs| ==> Mass(sig, gs[k]) <= p.budget)
            <==> |HardGroups(units, sliceBudget, sig)| <= p.n && forall u :: u in units ==> Weight(sig, u) <= p.budget
  {
    hide Weight, Mass, PlanOf, Groups, HardGroups, Fits, Flatten;
    var gs, p := Groups(units, sliceBudget, sig), PlanOf(|units|, Mass(sig, units), sliceBudget);
    BudgetHardIff(units, sliceBudget, sig);
    GroupsPack(units, sliceBudget, sig);
    forall k | 0 <= k < |gs|
      ensures Mass(sig, gs[k]) <= p.budget <==> Fits(sig, p.budget, gs[k]) && forall u :: u in gs[k] ==> Weight(sig, u) <= p.budget
    {
      GroupWithinIff(sig, p.budget, gs[k]);
    }
    forall u ensures u in units <==> exists k :: 0 <= k < |gs| && u in gs[k] {
      FlattenMembers(gs, u);
    }
  }

  /** The packing needs no more groups than planned to enforce the budget, and no unit alone outweighs it. */
  ghost predicate PacksWithin(units: seq<string>, budget: int, sig: string -> nat) {
    && units != [] && |HardGroups(units, budget, sig)| <= PlanOf(|units|, Mass(sig, units), budget).n
    && forall u :: u in units ==> Weight(sig, u) <= budget
  }

  lemma GroupWithin(units: seq<string>, budget: int, sig: string -> nat, k: nat)
    requires PacksWithin(units, budget, sig) && budget >= 1 && k < |Groups(units, budget, sig)|
    ensures Groups(units, budget, sig)[k] != [] && Mass(sig, Groups(units, budget, sig)[k]) <= budget
  {
    PlanAims(|units|, Mass(sig, units), budget);
    hide Weight, Mass, PlanOf, Groups, HardGroups, Fits, Flatten, AimsAt;
    GroupsWithinIff(units, budget, sig);
    GroupsPack(units, budget, sig);
  }

  /** The hard packing never lets a group of several units exceed the budget. */
  lemma HardGroupsFit(units: seq<string>, sliceBudget: int, sig: string -> nat)
    requires units != []
    ensures var gs, budget := HardGroups(units, sliceBudget, sig), if sliceBudget < 1 then 1 else sliceBudget;
            Flatten(gs) == units && NoneEmpty(gs) && forall k :: 0 <= k < |gs| ==> Fits(sig, budget, gs[k])
  {
    hide Mass, Pack, Fits;
    var p := PlanOf(|units|, Mass(sig, units), sliceBudget);
    PackKeeps(p, sig, units, false);
    PackFits(p, sig, units, false);
    var s := Pack(p, sig, units, false);
    FlattenNext(s.groups, s.cur);
  }

  lemma PackAfter(p: Plan, sig: string -> nat, units: seq<string>, u: string)
    ensures Pack(p, sig, units + [u], true) == PackOne(p, Pack(p, sig, units, true), u, Weight(sig, u), true)
  {
    assert (units + [u])[..|units|] == units;
  }

  /** Three units of weight 1206 under the least slice budget there is: the second fragment weighs 2412. */
  lemma BudgetOverflows(a: string, b: string, c: string)
    requires |a| == |b| == |c| == 5
    ensures Groups([a, b, c], 2000, Flat(1200)) == [[a], [b, c]] && Mass(Flat(1200), [b, c]) == 2412
  {
    var sig := Flat(1200);
    assert Weight(sig, a) == 1206 && Weight(sig, b) == 1206 && Weight(sig, c) == 1206;
    hide Mass, Pack, Weight, Flat;
    var p := Plan(2000, 2, 1809);
    MassOfThree(sig, a, b, c);
    MassOfTwo(sig, b, c);
    assert PlanOf(3, 3618, 2000) == p;
    PackOfThree(p, sig, a, b, c);
    assert [] + [a] == [a] && [b] + [c] == [b, c] && [] + [[a]] == [[a]] && [[a]] + [[b, c]] == [[a], [b, c]];
  }

  lemma PackOfThree(p: Plan, sig: string -> nat, a: string, b: string, c: string)
    ensures Pack(p, sig, [a, b, c], true) ==
            PackOne(p, PackOne(p, PackOne(p, NOTHING, a, Weight(sig, a), true), b, Weight(sig, b), true), c, Weight(sig, c), true)
  {
    assert Pack(p, sig, [], true) == NOTHING;
    hide Pack, PackOne, Weight;
    PackAfter(p, sig, [], a);
    PackAfter(p, sig, [a], b);
    PackAfter(p, sig, [a, b], c);
    assert [] + [a] == [a] && [a] + [b] == [a, b] && [a, b] + [c] == [a, b, c];
  }

  lemma MassOfOne(sig: string -> nat, a: string)
    ensures Mass(sig, [a]) == Weight(sig, a)
  {
    assert [a][..0] == [];
  }

  lemma MassOfTwo(sig: string -> nat, a: string, b: string)
    ensures Mass(sig, [a, b]) == Weight(sig, a) + Weight(sig, b)
  {
    assert [a, b][..1] == [a];
    MassOfOne(sig, a);
  }

  lemma MassOfThree(sig: string -> nat, a: string, b: string, c: string)
    ensures Mass(sig, [a, b, c]) == Weight(sig, a) + Weight(sig, b) + Weight(sig, c)
  {
    assert [a, b, c][..2] == [a, b];
    MassOfTwo(sig, a, b);
  }

  // ---------------------------------------------------------------- from view to fragments

  lemma {:induction false} JoinFlatten(groups: seq<seq<string>>)
    requires groups != [] && NoneEmpty(groups)
    ensures Flatten(groups) != [] && JoinLines(JoinEach(groups)) == JoinLines(Flatten(groups))
  {
    hide JoinLines;
    var n := |groups| - 1;
    var last := groups[n];
    assert groups == groups[..n] + [last];
    JoinEachNext(groups[..n], last);
    if n == 0 {
      assert Flatten(groups) == [] + last == last;
      assert JoinEach(groups) == [JoinLines(last)];
      JoinOne(JoinLines(last));
    } else {
      JoinFlatten(groups[..n]);
      JoinConcat(JoinEach(groups[..n]), [JoinLines(last)]);
      JoinOne(JoinLines(last));
      JoinConcat(Flatten(groups[..n]), last);
    }
  }

  /** A fragment starts as its first unit starts, provided that unit has code or is alone. */
  lemma HeadOfGroup(group: seq<string>)
    requires group != [] && (|group| > 1 ==> HasCode(group[0]))
    ensures StartsChainContinuation(JoinLines(group)) <==> StartsChainContinuation(group[0])
  {
    hide StartsChainContinuation, HasCode;
    if |group| > 1 {
      CodeDecides(group[0], JoinLines(group[1..]));
    }
  }

  lemma GluedPrefix(units: seq<string>, k: nat)
    requires GluedHeads(units) && k <= |units|
    ensures GluedHeads(units[..k])
  {
    hide HasCode, StartsChainContinuation;
  }

  /** Cutting only between glued units, no fragment after the first starts with an else-continuation. */
  lemma {:induction false} FragmentHeads(groups: seq<seq<string>>)
    requires NoneEmpty(groups) && GluedHeads(Flatten(groups))
    ensures forall k :: 1 <= k < |groups| ==> !StartsChainContinuation(JoinLines(groups[k]))
  {
    hide HasCode, StartsChainContinuation, JoinLines;
    if groups != [] {
      var n := |groups| - 1;
      var units, before, last := Flatten(groups), Flatten(groups[..n]), groups[n];
      assert units == before + last && units[..|before|] == before && units[|before|] == last[0];
      GluedPrefix(units, |before|);
      FragmentHeads(groups[..n]);
      if n > 0 {
        JoinFlatten(groups[..n]);
        HeadOfGroup(last);
      }
    }
  }

  /** The fragments of a view: its statement units, glued along else-chains and packed. */
  function Fragments(view: string, sliceBudget: int, sig: string -> nat): seq<string> {
    JoinEach(Groups(Glue(UnitsFrom(SplitLines(view), 0)), sliceBudget, sig))
  }

  method FragmentsOfView(view: string, sliceBudget: int, sig: string -> nat) returns (chunks: seq<string>)
    ensures chunks == Fragments(view, sliceBudget, sig)
    ensures JoinLines(chunks) == view
    ensures forall k :: 1 <= k < |chunks| ==> !StartsChainContinuation(chunks[k])
  {
    hide JoinLines, StartsChainContinuation, Glue, UnitsFrom, Groups;
    var units := SplitStatements(view);
    var glued := GlueChainUnits(units);
    chunks := GroupFragments(glued, sliceBudget, sig);
    FragmentsLossless(view, sliceBudget, sig);
    FragmentsStartCleanly(view, sliceBudget, sig);
  }

  /** Newline-joining the fragments gives the view back, whatever the budget. */
  lemma FragmentsLossless(view: string, sliceBudget: int, sig: string -> nat)
    ensures JoinLines(Fragments(view, sliceBudget, sig)) == view
  {
    hide JoinLines, Groups, UnitsFrom, PlanOf;
    var units := UnitsFrom(SplitLines(view), 0);
    SplitLossless(view);
    GlueLossless(units);
    GroupsPack(Glue(units), sliceBudget, sig);
    JoinFlatten(Groups(Glue(units), sliceBudget, sig));
  }

  lemma FragmentsStartCleanly(view: string, sliceBudget: int, sig: string -> nat)
    ensures var chunks := Fragments(view, sliceBudget, sig);
            forall k :: 1 <= k < |chunks| ==> !StartsChainContinuation(chunks[k])
  {
    hide JoinLines, Groups, UnitsFrom, PlanOf, Glue, HasCode, StartsChainContinuation;
    var lines := SplitLines(view);
    var units := UnitsFrom(lines, 0);
    SplitLinesOneLine(view);
    UnitsCoded(lines, 0);
    SplitLossless(view);
    GlueHeads(units);
    GroupsPack(Glue(units), sliceBudget, sig);
    FragmentHeads(Groups(Glue(units), sliceBudget, sig));
  }
}
