/** The gate that decides whether a method body can fall off its end, judged against a semantics of Go
    statements in which every condition, selection and failure is left open. */
module BodyGate {
  import opened Options

  datatype Stmt =
    | Return(text: string)
    | PanicCall
    | Simple(text: string)
    | Block(list: seq<Stmt>)
    | If(thn: seq<Stmt>, els: Option<Stmt>)
    | For(hasCond: bool, body: seq<Stmt>)
    | Range(body: seq<Stmt>)
    | Switch(clauses: seq<Clause>, hasDefault: bool)
    | Labeled(name: string, stmt: Stmt)
    | Break(target: Option<string>)
    | Continue(target: Option<string>)

  /** The body of one switch clause. */
  datatype Clause = Clause(body: seq<Stmt>)

  /** How a statement can end; `Cut` is an execution still going on when the choices run out. */
  datatype Outcome = Normal | Returned(text: string) | Panicked | BreakTo(target: Option<string>)
                   | ContinueTo(target: Option<string>) | Cut

  /** An outcome, the choices not used, and the statements executed on the way. */
  datatype Result = Result(outcome: Outcome, rest: seq<nat>, trace: seq<string>)

  // ---------------------------------------------------------------- semantics

  /** `break` or `break L` that leaves the statement carrying these labels. */
  predicate OwnBreak(o: Outcome, labels: set<string>) {
    o.BreakTo? && (o.target == None || o.target.value in labels)
  }

  predicate OwnContinue(o: Outcome, labels: set<string>) {
    o.ContinueTo? && (o.target == None || o.target.value in labels)
  }

  /** Runs `s` on a list of choices: zero makes the next step fail, one makes a condition true,
      and a larger number makes it false or picks a switch clause. */
  function Exec(s: Stmt, labels: set<string>, ds: seq<nat>): (r: Result)
    ensures |r.rest| <= |ds|
    decreases |ds|, s
  {
    match s
    case Return(text) =>
      if ds == [] then Result(Cut, [], [])
      else Result(if ds[0] == 0 then Panicked else Returned(text), ds[1..], [])
    case PanicCall => Result(Panicked, ds, [])
    case Simple(text) =>
      if ds == [] then Result(Cut, [], [])
      else Result(if ds[0] == 0 then Panicked else Normal, ds[1..], [text])
    case Block(list) => ExecList(list, ds)
    case If(thn, els) =>
      if ds == [] then Result(Cut, [], [])
      else if ds[0] == 0 then Result(Panicked, ds[1..], [])
      else if ds[0] == 1 then ExecList(thn, ds[1..])
      else if els == None then Result(Normal, ds[1..], [])
      else Exec(els.value, {}, ds[1..])
    case For(hasCond, body) =>
      if ds == [] then Result(Cut, [], [])
      else if hasCond && ds[0] == 0 then Result(Panicked, ds[1..], [])
      else if hasCond && ds[0] != 1 then Result(Normal, ds[1..], [])
      else
        var r := ExecList(body, ds[1..]);
        if OwnBreak(r.outcome, labels) then r.(outcome := Normal)
        else if r.outcome == Normal || OwnContinue(r.outcome, labels) then
          var r' := Exec(s, labels, r.rest);
          r'.(trace := r.trace + r'.trace)
        else r
    case Range(body) =>
      if ds == [] then Result(Cut, [], [])
      else if ds[0] == 0 then Result(Panicked, ds[1..], [])
      else if ds[0] != 1 then Result(Normal, ds[1..], [])
      else
        var r := ExecList(body, ds[1..]);
        if OwnBreak(r.outcome, labels) then r.(outcome := Normal)
        else if r.outcome == Normal || OwnContinue(r.outcome, labels) then
          var r' := Exec(s, labels, r.rest);
          r'.(trace := r.trace + r'.trace)
        else r
    case Switch(clauses, hasDefault) =>
      if ds == [] then Result(Cut, [], [])
      else if ds[0] == 0 then Result(Panicked, ds[1..], [])
      else if clauses == [] || (ds[0] > |clauses| && !hasDefault) then Result(Normal, ds[1..], [])
      else
        var r := ExecList(clauses[if ds[0] > |clauses| then 0 else ds[0] - 1].body, ds[1..]);
        if OwnBreak(r.outcome, labels) then r.(outcome := Normal) else r
    case Labeled(name, stmt) =>
      var r := Exec(stmt, labels + {name}, ds);
      if r.outcome == BreakTo(Some(name)) then r.(outcome := Normal) else r
    case Break(target) => Result(BreakTo(target), ds, [])
    case Continue(target) => Result(ContinueTo(target), ds, [])
  }

  function ExecList(list: seq<Stmt>, ds: seq<nat>): (r: Result)
    ensures |r.rest| <= |ds|
    decreases |ds|, list
  {
    if list == [] then Result(Normal, ds, [])
    else
      var r := Exec(list[0], {}, ds);
      if r.outcome != Normal then r
      else
        var r' := ExecList(list[1..], r.rest);
        r'.(trace := r.trace + r'.trace)
  }

  // ---------------------------------------------------------------- what can happen, read off the text

  /** The outcomes a loop lets through from its body. */
  function LoopFlow(body: set<Outcome>, labels: set<string>): set<Outcome> {
    (set o | o in body && o != Normal && !OwnBreak(o, labels) && !OwnContinue(o, labels))
    + if exists o :: o in body && OwnBreak(o, labels) then {Normal} else {}
  }

  function SwitchFlow(bodies: set<Outcome>, labels: set<string>): set<Outcome> {
    (set o | o in bodies && !OwnBreak(o, labels))
    + if exists o :: o in bodies && OwnBreak(o, labels) then {Normal} else {}
  }

  /** Every outcome the statement can have, computed from its structure. */
  function Flow(s: Stmt, labels: set<string>): set<Outcome>
    decreases s
  {
    match s
    case Return(text) => {Returned(text), Panicked}
    case PanicCall => {Panicked}
    case Simple(_) => {Normal, Panicked}
    case Block(list) => FlowList(list)
    case If(thn, els) => {Panicked} + FlowList(thn) + if els == None then {Normal} else Flow(els.value, {})
    case For(hasCond, body) => LoopFlow(FlowList(body), labels) + if hasCond then {Normal, Panicked} else {}
    case Range(body) => LoopFlow(FlowList(body), labels) + {Normal, Panicked}
    case Switch(clauses, hasDefault) =>
      SwitchFlow(FlowClauses(clauses), labels) + {Panicked} + if clauses == [] || !hasDefault then {Normal} else {}
    case Labeled(name, stmt) =>
      var f := Flow(stmt, labels + {name});
      if BreakTo(Some(name)) in f then f - {BreakTo(Some(name))} + {Normal} else f
    case Break(target) => {BreakTo(target)}
    case Continue(target) => {ContinueTo(target)}
  }

  function FlowList(list: seq<Stmt>): set<Outcome>
    decreases list
  {
    if list == [] then {Normal}
    else
      var f := Flow(list[0], {});
      if Normal in f then f - {Normal} + FlowList(list[1..]) else f
  }

  function FlowClauses(clauses: seq<Clause>): set<Outcome>
    decreases clauses
  {
    if clauses == [] then {} else FlowList(clauses[0].body) + FlowClauses(clauses[1..])
  }

  lemma {:induction false} ClauseFlow(clauses: seq<Clause>, i: nat)
    requires i < |clauses|
    ensures FlowList(clauses[i].body) <= FlowClauses(clauses)
  {
    if i > 0 {
      ClauseFlow(clauses[1..], i - 1);
    }
  }

  /** No execution ends in a way the text does not show. */
  lemma {:induction false} FlowSound(s: Stmt, labels: set<string>, ds: seq<nat>)
    ensures var o := Exec(s, labels, ds).outcome; o == Cut || o in Flow(s, labels)
    decreases |ds|, s
  {
    match s
    case Block(list) => FlowListSound(list, ds);
    case If(thn, els) =>
      if ds != [] {
        FlowListSound(thn, ds[1..]);
        if els != None {
          FlowSound(els.value, {}, ds[1..]);
        }
      }
    case For(hasCond, body) =>
      if ds != [] {
        FlowListSound(body, ds[1..]);
        FlowSound(s, labels, ExecList(body, ds[1..]).rest);
      }
    case Range(body) =>
      if ds != [] {
        FlowListSound(body, ds[1..]);
        FlowSound(s, labels, ExecList(body, ds[1..]).rest);
      }
    case Switch(clauses, hasDefault) =>
      if ds != [] && clauses != [] && ds[0] > 0 {
        var i := if ds[0] > |clauses| then 0 else ds[0] - 1;
        FlowListSound(clauses[i].body, ds[1..]);
        ClauseFlow(clauses, i);
      }
    case Labeled(name, stmt) => FlowSound(stmt, labels + {name}, ds);
    case _ =>
  }

  lemma {:induction false} FlowListSound(list: seq<Stmt>, ds: seq<nat>)
    ensures var o := ExecList(list, ds).outcome; o == Cut || o in FlowList(list)
    decreases |ds|, list
  {
    if list != [] {
      FlowSound(list[0], {}, ds);
      FlowListSound(list[1..], Exec(list[0], {}, ds).rest);
    }
  }

  /** Everything the text shows can happen: some choices lead there, whatever follows them. */
  lemma {:induction false} FlowComplete(s: Stmt, labels: set<string>, o: Outcome)
    returns (ds: seq<nat>, trace: seq<string>)
    requires o in Flow(s, labels)
    ensures forall more :: Exec(s, labels, ds + more) == Result(o, more, trace)
    decreases s, 2
  {
    match s
    case Return(text) => ds, trace := [if o == Panicked then 0 else 1], [];
    case PanicCall => ds, trace := [], [];
    case Simple(text) => ds, trace := [if o == Panicked then 0 else 1], [text];
    case Block(list) => ds, trace := FlowListComplete(list, o);
    case If(thn, els) =>
      if o in FlowList(thn) {
        ds, trace := FlowListComplete(thn, o);
        ds := Choose(1, ds);
      } else if els != None && o in Flow(els.value, {}) {
        ds, trace := FlowComplete(els.value, {}, o);
        ds := Choose(2, ds);
      } else {
        ds, trace := [if o == Panicked then 0 else 2], [];
      }
    case For(hasCond, body) =>
      if o in LoopFlow(FlowList(body), labels) {
        ds, trace := LoopComplete(body, labels, o);
        ds := Choose(1, ds);
      } else {
        ds, trace := [if o == Panicked then 0 else 2], [];
      }
    case Range(body) =>
      if o in LoopFlow(FlowList(body), labels) {
        ds, trace := LoopComplete(body, labels, o);
        ds := Choose(1, ds);
      } else {
        ds, trace := [if o == Panicked then 0 else 2], [];
      }
    case Switch(clauses, hasDefault) =>
      if o in SwitchFlow(FlowClauses(clauses), labels) {
        ds, trace := SwitchComplete(clauses, labels, o);
      } else {
        ds, trace := [if o == Panicked then 0 else |clauses| + 1], [];
      }
    case Labeled(name, stmt) =>
      var o' := if o in Flow(stmt, labels + {name}) then o else BreakTo(Some(name));
      ds, trace := FlowComplete(stmt, labels + {name}, o');
    case Break(target) => ds, trace := [], [];
    case Continue(target) => ds, trace := [], [];
  }

  lemma Choose(d: nat, ds: seq<nat>) returns (r: seq<nat>)
    ensures r == [d] + ds && forall more :: (r + more)[1..] == ds + more
  {
    r := [d] + ds;
  }

  lemma {:induction false} LoopComplete(body: seq<Stmt>, labels: set<string>, o: Outcome)
    returns (ds: seq<nat>, trace: seq<string>)
    requires o in LoopFlow(FlowList(body), labels)
    ensures forall more :: var r := ExecList(body, ds + more);
                           r.rest == more && r.trace == trace &&
                           if OwnBreak(r.outcome, labels) then o == Normal
                           else r.outcome == o && o != Normal && !OwnContinue(o, labels)
    decreases body, 1
  {
    var o' := o;
    if o == Normal {
      o' :| o' in FlowList(body) && OwnBreak(o', labels);
    }
    ds, trace := FlowListComplete(body, o');
  }

  lemma {:induction false} SwitchComplete(clauses: seq<Clause>, labels: set<string>, o: Outcome)
    returns (ds: seq<nat>, trace: seq<string>)
    requires o in SwitchFlow(FlowClauses(clauses), labels)
    ensures forall more, hasDefault :: Exec(Switch(clauses, hasDefault), labels, ds + more) == Result(o, more, trace)
    decreases clauses, 1
  {
    var o' := o;
    if o !in FlowClauses(clauses) || OwnBreak(o, labels) {
      o' :| o' in FlowClauses(clauses) && OwnBreak(o', labels);
    }
    var i;
    i, ds, trace := ClauseComplete(clauses, o');
    ds := Choose(i + 1, ds);
  }

  lemma {:induction false} ClauseComplete(clauses: seq<Clause>, o: Outcome)
    returns (i: nat, ds: seq<nat>, trace: seq<string>)
    requires o in FlowClauses(clauses)
    ensures i < |clauses| && forall more :: ExecList(clauses[i].body, ds + more) == Result(o, more, trace)
    decreases clauses, 0
  {
    if o in FlowList(clauses[0].body) {
      i := 0;
      ds, trace := FlowListComplete(clauses[0].body, o);
    } else {
      i, ds, trace := ClauseComplete(clauses[1..], o);
      i := i + 1;
    }
  }

  lemma {:induction false} FlowListComplete(list: seq<Stmt>, o: Outcome) returns (ds: seq<nat>, trace: seq<string>)
    requires o in FlowList(list)
    ensures forall more :: ExecList(list, ds + more) == Result(o, more, trace)
    decreases list, 0
  {
    if list == [] {
      ds, trace := [], [];
      assert forall more: seq<nat> :: [] + more == more;
    } else if o in Flow(list[0], {}) && o != Normal {
      ds, trace := FlowComplete(list[0], {}, o);
    } else {
      var first, t := FlowComplete(list[0], {}, Normal);
      var then_, t' := FlowListComplete(list[1..], o);
      ds, trace := first + then_, t + t';
      forall more ensures ExecList(list, ds + more) == Result(o, more, trace) {
        assert ds + more == first + (then_ + more);
      }
    }
  }

  /** The text shows exactly what can happen. */
  lemma FlowExact(s: Stmt, labels: set<string>, o: Outcome)
    requires o != Cut
    ensures o in Flow(s, labels) <==> exists ds :: Exec(s, labels, ds).outcome == o
  {
    if o in Flow(s, labels) {
      var ds, trace := FlowComplete(s, labels, o);
      assert ds + [] == ds;
      assert Exec(s, labels, ds).outcome == o;
    }
    if ds :| Exec(s, labels, ds).outcome == o {
      FlowSound(s, labels, ds);
    }
  }

  // ---------------------------------------------------------------- the gate

  /** The gate's own test: the terminating statements it knows. */
  predicate Terminates(s: Stmt)
    decreases s
  {
    match s
    case Return(_) => true
    case PanicCall => true
    case Block(list) => list != [] && Terminates(list[|list| - 1])
    case If(thn, els) =>
      els != None && thn != [] && Terminates(thn[|thn| - 1]) && Terminates(els.value)
    case For(hasCond, _) => !hasCond
    case Labeled(_, stmt) => Terminates(stmt)
    case _ => false
  }

  /** No break the accepted statement can reach leaves a condition-less loop it was accepted for;
      what precedes the last statement of a list may already make that statement unreachable. */
  predicate NoReachableEscape(s: Stmt, labels: set<string>)
    decreases s, 0
  {
    match s
    case Block(list) => NoEscapeAtEnd(list)
    case If(thn, els) => NoEscapeAtEnd(thn) && (els == None || NoReachableEscape(els.value, {}))
    case For(_, body) => forall o :: o in FlowList(body) ==> !OwnBreak(o, labels)
    case Labeled(name, stmt) =>
      NoReachableEscape(stmt, labels + {name}) && BreakTo(Some(name)) !in Flow(stmt, labels + {name})
    case _ => true
  }

  predicate NoEscapeAtEnd(list: seq<Stmt>)
    decreases list, 0
  {
    list == [] || Normal !in FlowList(list[..|list| - 1]) || NoReachableEscape(list[|list| - 1], {})
  }

  lemma {:induction false} FlowListEnd(list: seq<Stmt>)
    requires list != []
    ensures Normal in FlowList(list) <==>
            Normal in FlowList(list[..|list| - 1]) && Normal in Flow(list[|list| - 1], {})
  {
    if |list| > 1 {
      FlowListEnd(list[1..]);
      assert list[1..][..|list| - 2] == list[..|list| - 1][1..];
    }
  }

  /** An accepted statement cannot complete normally exactly when no reachable break escapes it. */
  lemma {:induction false} TerminatesFlow(s: Stmt, labels: set<string>)
    requires Terminates(s)
    ensures Normal !in Flow(s, labels) <==> NoReachableEscape(s, labels)
    decreases s
  {
    match s
    case Block(list) =>
      FlowListEnd(list);
      TerminatesFlow(list[|list| - 1], {});
    case If(thn, els) =>
      FlowListEnd(thn);
      TerminatesFlow(thn[|thn| - 1], {});
      TerminatesFlow(els.value, {});
    case Labeled(name, stmt) => TerminatesFlow(stmt, labels + {name});
    case _ =>
  }

  lemma TerminatesIff(s: Stmt)
    requires Terminates(s)
    ensures (forall ds :: Exec(s, {}, ds).outcome != Normal) <==> NoReachableEscape(s, {})
  {
    TerminatesFlow(s, {});
    FlowExact(s, {}, Normal);
  }

  /** The gate accepts `for { break }`, which completes normally. */
  lemma GateAcceptsLeavingLoop()
    ensures var s := For(false, [Break(None)]); Terminates(s) && Exec(s, {}, [1]).outcome == Normal
  {
    var body := [Break(None)];
    assert ExecList(body, []) == Result(BreakTo(None), [], []);
    assert [1][1..] == [];
  }

  // ---------------------------------------------------------------- the language's own rule

  /** A break in the text that refers to the enclosing statement with these labels; a plain break only
      counts where no inner loop or switch catches it. */
  predicate RefersOut(s: Stmt, labels: set<string>, plain: bool)
    decreases s
  {
    match s
    case Block(list) => RefersOutList(list, labels, plain)
    case If(thn, els) => RefersOutList(thn, labels, plain) || (els != None && RefersOut(els.value, labels, plain))
    case For(_, body) => RefersOutList(body, labels, false)
    case Range(body) => RefersOutList(body, labels, false)
    case Switch(clauses, _) => RefersOutClauses(clauses, labels)
    case Labeled(_, stmt) => RefersOut(stmt, labels, plain)
    case Break(target) => if target == None then plain else target.value in labels
    case _ => false
  }

  predicate RefersOutList(list: seq<Stmt>, labels: set<string>, plain: bool)
    decreases list
  {
    list != [] && (RefersOut(list[0], labels, plain) || RefersOutList(list[1..], labels, plain))
  }

  predicate RefersOutClauses(clauses: seq<Clause>, labels: set<string>)
    decreases clauses
  {
    clauses != [] && (RefersOutList(clauses[0].body, labels, false) || RefersOutClauses(clauses[1..], labels))
  }

  lemma {:induction false} BreakIsInText(s: Stmt, own: set<string>, labels: set<string>, target: Option<string>)
    requires BreakTo(target) in Flow(s, own)
    requires target == None || target.value in labels
    ensures RefersOut(s, labels, target == None)
    decreases s
  {
    match s
    case Block(list) => BreakIsInList(list, labels, target);
    case If(thn, els) =>
      if BreakTo(target) in FlowList(thn) {
        BreakIsInList(thn, labels, target);
      } else {
        BreakIsInText(els.value, {}, labels, target);
      }
    case For(_, body) => BreakIsInList(body, labels, target);
    case Range(body) => BreakIsInList(body, labels, target);
    case Switch(clauses, _) => BreakIsInClauses(clauses, labels, target);
    case Labeled(name, stmt) => BreakIsInText(stmt, own + {name}, labels, target);
    case _ =>
  }

  lemma {:induction false} BreakIsInList(list: seq<Stmt>, labels: set<string>, target: Option<string>)
    requires BreakTo(target) in FlowList(list)
    requires target == None || target.value in labels
    ensures RefersOutList(list, labels, target == None)
    decreases list
  {
    if BreakTo(target) in Flow(list[0], {}) {
      BreakIsInText(list[0], {}, labels, target);
    } else {
      BreakIsInList(list[1..], labels, target);
    }
  }

  lemma {:induction false} BreakIsInClauses(clauses: seq<Clause>, labels: set<string>, target: Option<string>)
    requires BreakTo(target) in FlowClauses(clauses) && target != None && target.value in labels
    ensures RefersOutClauses(clauses, labels)
    decreases clauses
  {
    if BreakTo(target) in FlowList(clauses[0].body) {
      BreakIsInList(clauses[0].body, labels, target);
    } else {
      BreakIsInClauses(clauses[1..], labels, target);
    }
  }

  /** The gate with the no-break condition of the Go specification restored. */
  predicate TerminatesStrictly(s: Stmt, labels: set<string>)
    decreases s
  {
    match s
    case Return(_) => true
    case PanicCall => true
    case Block(list) => list != [] && TerminatesStrictly(list[|list| - 1], {})
    case If(thn, els) =>
      els != None && thn != [] && TerminatesStrictly(thn[|thn| - 1], {}) && TerminatesStrictly(els.value, {})
    case For(hasCond, body) =>
      !hasCond && !RefersOutList(body, labels, true) && !RefersOutList(body, labels, false)
    case Labeled(name, stmt) => TerminatesStrictly(stmt, labels + {name}) && !RefersOut(stmt, {name}, false)
    case _ => false
  }

  /** With that condition the gate is sound without any proviso. */
  lemma {:induction false} StrictGateIsSound(s: Stmt, labels: set<string>, ds: seq<nat>)
    requires TerminatesStrictly(s, labels)
    ensures Exec(s, labels, ds).outcome != Normal
  {
    StrictGateFlow(s, labels);
    FlowSound(s, labels, ds);
  }

  lemma {:induction false} StrictGateFlow(s: Stmt, labels: set<string>)
    requires TerminatesStrictly(s, labels)
    ensures Terminates(s) && Normal !in Flow(s, labels)
    decreases s
  {
    match s
    case Block(list) =>
      FlowListEnd(list);
      StrictGateFlow(list[|list| - 1], {});
    case If(thn, els) =>
      FlowListEnd(thn);
      StrictGateFlow(thn[|thn| - 1], {});
      StrictGateFlow(els.value, {});
    case For(_, body) =>
      if o :| o in FlowList(body) && OwnBreak(o, labels) {
        BreakIsInList(body, labels, o.target);
      }
    case Labeled(name, stmt) =>
      StrictGateFlow(stmt, labels + {name});
      if BreakTo(Some(name)) in Flow(stmt, labels + {name}) {
        BreakIsInText(stmt, labels + {name}, {name}, Some(name));
      }
    case _ =>
  }

  // ---------------------------------------------------------------- the repair

  const TERMINAL := Return("data, err")

  /** The gate's error: a parsed, non-empty body whose last statement is not accepted. */
  predicate CanFallOff(body: seq<Stmt>) {
    body != [] && !Terminates(body[|body| - 1])
  }

  function EnsureTerminalReturn(body: seq<Stmt>): seq<Stmt> {
    if CanFallOff(body) then body + [TERMINAL] else body
  }

  lemma RepairIdempotent(body: seq<Stmt>)
    ensures EnsureTerminalReturn(EnsureTerminalReturn(body)) == EnsureTerminalReturn(body)
    ensures !CanFallOff(EnsureTerminalReturn(body))
  {
  }

  lemma {:induction false} ExecAppend(a: seq<Stmt>, b: seq<Stmt>, ds: seq<nat>)
    ensures var r := ExecList(a, ds);
            ExecList(a + b, ds) ==
            if r.outcome != Normal then r
            else var r' := ExecList(b, r.rest); r'.(trace := r.trace + r'.trace)
    decreases a
  {
    if a == [] {
      assert a + b == b;
    } else {
      assert (a + b)[1..] == a[1..] + b && (a + b)[0] == a[0];
      ExecAppend(a[1..], b, Exec(a[0], {}, ds).rest);
    }
  }

  /** The repaired body does what the body did on every execution that did not fall off the end,
      and returns where the body fell off. */
  lemma RepairAgrees(body: seq<Stmt>, ds: seq<nat>)
    ensures var r, r' := ExecList(body, ds), ExecList(EnsureTerminalReturn(body), ds);
            && (r.outcome != Normal ==> r' == r)
            && (r.outcome == Normal && CanFallOff(body) && r.rest != [] && r.rest[0] != 0 ==>
                  r' == Result(Returned(TERMINAL.text), r.rest[1..], r.trace))
  {
    ExecAppend(body, [TERMINAL], ds);
    var r := ExecList(body, ds);
    if r.outcome == Normal && r.rest != [] {
      assert ExecList([TERMINAL][1..], Exec(TERMINAL, {}, r.rest).rest).outcome == Normal;
    }
  }

  /** The repaired body can fall off its end exactly when it is empty, or when the gate accepted a last
      statement that a reachable break leaves. */
  lemma RepairedFallsOffIff(body: seq<Stmt>)
    ensures (exists ds :: ExecList(EnsureTerminalReturn(body), ds).outcome == Normal) <==>
            body == [] || (Terminates(body[|body| - 1]) && !NoEscapeAtEnd(body))
  {
    hide Exec, ExecList, NoReachableEscape;
    var fixed := EnsureTerminalReturn(body);
    FlowListExact(fixed);
    if body == [] {
      assert Normal in FlowList(fixed);
    } else {
      FlowListEnd(fixed);
      assert Terminates(TERMINAL) && Normal !in Flow(TERMINAL, {});
      if Terminates(body[|body| - 1]) {
        TerminatesFlow(body[|body| - 1], {});
      }
    }
  }

  lemma FlowListExact(list: seq<Stmt>)
    ensures Normal in FlowList(list) <==> exists ds :: ExecList(list, ds).outcome == Normal
  {
    hide Exec, ExecList, FlowList;
    if Normal in FlowList(list) {
      var ds, trace := FlowListComplete(list, Normal);
      assert ExecList(list, ds + []) == Result(Normal, [], trace);
    }
    if ds :| ExecList(list, ds).outcome == Normal {
      FlowListSound(list, ds);
    }
  }
}
