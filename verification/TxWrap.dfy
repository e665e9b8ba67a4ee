/** The repair that turns a controller method body into a transaction closure, line by line, and what the
    wrapped method then does compared with the original. */
module TxWrap {
  import opened Options
  import opened Text
  import opened CallArgs

  // ---------------------------------------------------------------- return lines

  const RETURN := "return"

  predicate IsReturnLine(t: string) {
    t == RETURN || HasAt(t, 0, RETURN + " ") || HasAt(t, 0, RETURN + "\t")
  }

  /** The value list of a trimmed return line. */
  function ReturnRest(t: string): string
    requires IsReturnLine(t)
  {
    Trim(t[|RETURN|..])
  }

  /** Where the first value of a value list ends: -1 when there is only one. */
  function FirstValueEnd(rest: string): int {
    if |Split(rest)| == 1 then -1 else |Split(rest)[0]|
  }

  /** One body line in closure form: the first value goes, a bare return names the error. */
  function RewriteClosureReturn(line: string): string {
    var t := Trim(line);
    if !IsReturnLine(t) then line
    else
      var rest := ReturnRest(t);
      if rest == "" then Leading(line) + "return err"
      else if FirstValueEnd(rest) >= 0 && FirstValueEnd(rest) < |rest| then
        Leading(line) + "return " + Trim(rest[FirstValueEnd(rest) + 1..])
      else line
  }

  method RewriteReturn(line: string) returns (r: string)
    ensures r == RewriteClosureReturn(line)
  {
    var trimmed := Trim(line);
    if !IsReturnLine(trimmed) {
      return line;
    }
    var indent := Leading(line);
    var rest := Trim(trimmed[|RETURN|..]);
    if rest == "" {
      return indent + "return err";
    }
    var i := DepthZeroComma(rest);
    if i >= 0 {
      return indent + "return " + Trim(rest[i + 1..]);
    }
    return line;
  }

  // ---------------------------------------------------------------- what a return line returns

  /** The values a return statement lists. */
  datatype Values = Bare | One(v: string) | Two(first: string, second: string) | Malformed

  function ValuesOf(rest: string): Values {
    var parts := Split(rest);
    if rest == "" then Bare
    else if |parts| == 1 then One(Trim(parts[0]))
    else if |parts| == 2 && Trim(parts[0]) != "" && Trim(parts[1]) != "" then Two(Trim(parts[0]), Trim(parts[1]))
    else Malformed
  }

  function ReturnValues(line: string): Values
    requires IsReturnLine(Trim(line))
  {
    ValuesOf(ReturnRest(Trim(line)))
  }

  lemma {:induction false} RunSpaces(l: Lex, a: string)
    requires AllSpace(a) && InCode(l)
    ensures Run(l, a) == l
  {
    if a != "" {
      RunSpaces(l, a[..|a| - 1]);
      assert IsSpace(a[|a| - 1]);
    }
  }

  /** White space around a value changes nothing about its commas. */
  lemma TrimKeepsAtom(s: string)
    requires Atom(s)
    ensures Atom(Trim(s))
  {
    var a, c := TrimSplit(s);
    var t := Trim(s);
    forall j | 0 <= j < |t| ensures !TopComma(t, j) {
      assert s == (a + t) + c;
      assert s[..|a| + j] == a + t[..j];
      RunConcat(START, a, t[..j]);
      RunSpaces(START, a);
      assert s[|a| + j] == t[j];
      assert !TopComma(s, |a| + j);
    }
  }

  lemma {:induction false} PartsAreAtomic(s: string, k: nat)
    requires k < |Split(s)|
    ensures Atom(Split(s)[k])
  {
    PartsAreAtoms(s, k);
    var p := Split(s)[k];
    if j: nat :| j < |p| && TopComma(p, j) {
      SplitNeedsNoComma(p, j);
    }
  }

  lemma SplitNeedsNoComma(p: string, j: nat)
    requires TopComma(p, j)
    ensures |Split(p)| >= 2
  {
    assert FirstComma(p, 0) <= j;
  }

  lemma LeadingIsSpace(line: string)
    ensures AllSpace(Leading(line))
  {
    forall i | 0 <= i < |Leading(line)| ensures IsSpace(Leading(line)[i]) {
      assert IsBlank(Leading(line)[i]);
    }
  }

  lemma IndentGoes(line: string, t: string)
    requires Tight(t)
    ensures Trim(Leading(line) + t) == t
  {
    LeadingIsSpace(line);
    TrimOf(Leading(line), t, "");
    assert Leading(line) + t + "" == Leading(line) + t;
  }

  lemma RestOf(v: string)
    requires Tight(v) && v != ""
    ensures Tight("return " + v) && IsReturnLine("return " + v) && ReturnRest("return " + v) == v
  {
    var t := "return " + v;
    assert t[0..7] == RETURN + " ";
    assert t[|RETURN|..] == " " + v + "";
    TrimOf(" ", v, "");
  }

  /** Reading back a line written as indent, `return ` and one value. */
  lemma ReadReturn(line: string, v: string)
    requires Tight(v) && v != "" && Atom(v)
    ensures var r := Leading(line) + ("return " + v); IsReturnLine(Trim(r)) && ReturnValues(r) == One(v)
  {
    hide Trim, Leading, Split, IsReturnLine, ReturnRest;
    RestOf(v);
    IndentGoes(line, "return " + v);
    NoCommaWhole(v);
    TrimNone(v);
  }

  /** The value after the first comma of a two-value list. */
  lemma SecondValue(rest: string)
    requires |Split(rest)| == 2
    ensures |Split(rest)[0]| < |rest| && rest[|Split(rest)[0]| + 1..] == Split(rest)[1]
    ensures Atom(Trim(Split(rest)[1])) && Tight(Trim(Split(rest)[1]))
  {
    var parts := Split(rest);
    JoinSplit(rest);
    assert parts == [parts[0], parts[1]];
    assert rest == parts[0] + "," + parts[1];
    PartsAreAtomic(rest, 1);
    TrimKeepsAtom(parts[1]);
    var a, c := TrimSplit(parts[1]);
  }

  /** The rewritten line returns exactly the second value; a bare return returns the named error. */
  lemma RewriteKeepsError(line: string)
    requires IsReturnLine(Trim(line))
    ensures ReturnValues(line).Two? ==>
              IsReturnLine(Trim(RewriteClosureReturn(line))) &&
              ReturnValues(RewriteClosureReturn(line)) == One(ReturnValues(line).second)
    ensures ReturnValues(line).Bare? ==>
              IsReturnLine(Trim(RewriteClosureReturn(line))) && ReturnValues(RewriteClosureReturn(line)) == One("err")
  {
    hide Trim, Leading, Split, Atom, IsReturnLine;
    var rest := ReturnRest(Trim(line));
    if rest == "" {
      ErrIsAtom();
      ReadReturn(line, "err");
      assert Leading(line) + "return err" == Leading(line) + ("return " + "err");
    } else if ReturnValues(line).Two? {
      SecondValue(rest);
      ReadReturn(line, Trim(Split(rest)[1]));
      assert Leading(line) + "return " + Trim(Split(rest)[1]) == Leading(line) + ("return " + Trim(Split(rest)[1]));
    }
  }

  /** A two-value return keeps its second value only: a store call written in the first is lost. */
  lemma FirstValueGoes(line: string)
    requires IsReturnLine(Trim(line)) && ReturnValues(line).Two?
    ensures RewriteClosureReturn(line) == Leading(line) + "return " + ReturnValues(line).second
  {
    hide Trim, Leading, Split, Atom, IsReturnLine;
    SecondValue(ReturnRest(Trim(line)));
  }

  lemma ErrIsAtom()
    ensures Atom("err") && Tight("err")
  {
    assert forall j :: 0 <= j < 3 ==> "err"[j] != ',';
  }

  // ---------------------------------------------------------------- bodies

  /** A block under its header: a condition, an else, or the label of a case. */
  datatype Arm = Arm(header: seq<string>, body: seq<Stmt>)

  /** A statement as it is laid out: a return on a line of its own, any other simple statement or run of comments and
      blank lines, and the blocks with the lines of their headers and their closing line. An if has an arm for every
      condition, and the last one is untested when the chain ends in an else. */
  datatype Stmt =
    | Return(line: string)
    | Simple(lines: seq<string>)
    | If(arms: seq<Arm>, hasElse: bool, close: string)
    | Switch(header: seq<string>, cases: seq<Arm>, close: string)
    | Loop(header: seq<string>, body: seq<Stmt>, close: string)

  function Print(list: seq<Stmt>): seq<string>
    decreases list
  {
    if list == [] then [] else PrintOne(list[0]) + Print(list[1..])
  }

  function PrintOne(s: Stmt): seq<string>
    decreases s
  {
    match s
    case Return(line) => [line]
    case Simple(lines) => lines
    case If(arms, _, close) => PrintArms(arms) + [close]
    case Switch(header, cases, close) => header + PrintArms(cases) + [close]
    case Loop(header, body, close) => header + Print(body) + [close]
  }

  function PrintArms(arms: seq<Arm>): seq<string>
    decreases arms
  {
    if arms == [] then [] else arms[0].header + Print(arms[0].body) + PrintArms(arms[1..])
  }

  predicate NoReturns(lines: seq<string>) {
    forall k :: 0 <= k < |lines| ==> !IsReturnLine(Trim(lines[k]))
  }

  /** A line of code that closes a block. */
  predicate Closing(close: string) {
    Trim(close) != "" && !IsReturnLine(Trim(close))
  }

  /** Returns stand on lines of their own; headers, closing lines and other statements have no line that reads as one. */
  predicate Laid(list: seq<Stmt>)
    decreases list
  {
    list == [] || (LaidOne(list[0]) && Laid(list[1..]))
  }

  predicate LaidOne(s: Stmt)
    decreases s
  {
    match s
    case Return(line) => IsReturnLine(Trim(line))
    case Simple(lines) => NoReturns(lines)
    case If(arms, _, close) => LaidArms(arms) && Closing(close)
    case Switch(header, cases, close) => NoReturns(header) && LaidArms(cases) && Closing(close)
    case Loop(header, body, close) => NoReturns(header) && Laid(body) && Closing(close)
  }

  predicate LaidArms(arms: seq<Arm>)
    decreases arms
  {
    arms == [] || (NoReturns(arms[0].header) && Laid(arms[0].body) && LaidArms(arms[1..]))
  }

  /** The body with every return in closure form. */
  function Rewrite(list: seq<Stmt>): seq<Stmt>
    decreases list
  {
    if list == [] then [] else [RewriteOne(list[0])] + Rewrite(list[1..])
  }

  function RewriteOne(s: Stmt): Stmt
    decreases s
  {
    match s
    case Return(line) => Return(RewriteClosureReturn(line))
    case Simple(lines) => Simple(lines)
    case If(arms, hasElse, close) => If(RewriteArms(arms), hasElse, close)
    case Switch(header, cases, close) => Switch(header, RewriteArms(cases), close)
    case Loop(header, body, close) => Loop(header, Rewrite(body), close)
  }

  function RewriteArms(arms: seq<Arm>): seq<Arm>
    decreases arms
  {
    if arms == [] then [] else [Arm(arms[0].header, Rewrite(arms[0].body))] + RewriteArms(arms[1..])
  }

  lemma {:induction false} RewriteArmsAt(arms: seq<Arm>, k: nat)
    ensures |RewriteArms(arms)| == |arms|
    ensures k < |arms| ==> RewriteArms(arms)[k] == Arm(arms[k].header, Rewrite(arms[k].body))
    decreases |arms|
  {
    hide Rewrite;
    if arms != [] {
      RewriteArmsAt(arms[1..], if k > 0 then k - 1 else 0);
    }
  }

  function RewriteLines(lines: seq<string>): (r: seq<string>)
    ensures |r| == |lines| && forall i :: 0 <= i < |lines| ==> r[i] == RewriteClosureReturn(lines[i])
  {
    seq(|lines|, i requires 0 <= i < |lines| => RewriteClosureReturn(lines[i]))
  }

  lemma RewriteLinesConcat(a: seq<string>, b: seq<string>)
    ensures RewriteLines(a + b) == RewriteLines(a) + RewriteLines(b)
  {
    hide RewriteClosureReturn;
  }

  lemma KeptLines(lines: seq<string>)
    requires NoReturns(lines)
    ensures RewriteLines(lines) == lines
  {
  }

  lemma KeptClose(close: string)
    requires Closing(close)
    ensures RewriteLines([close]) == [close]
  {
  }

  /** Rewriting the printed lines one by one is rewriting the statements. */
  lemma {:induction false} RewritePrinted(list: seq<Stmt>)
    requires Laid(list)
    ensures RewriteLines(Print(list)) == Print(Rewrite(list))
    decreases list
  {
    hide RewriteClosureReturn, LaidOne;
    if list != [] {
      RewritePrintedOne(list[0]);
      RewritePrinted(list[1..]);
      RewriteLinesConcat(PrintOne(list[0]), Print(list[1..]));
      assert Rewrite(list)[1..] == Rewrite(list[1..]);
    }
  }

  lemma {:induction false} RewritePrintedOne(s: Stmt)
    requires LaidOne(s)
    ensures RewriteLines(PrintOne(s)) == PrintOne(RewriteOne(s))
    decreases s
  {
    hide RewriteClosureReturn, NoReturns, Closing, Print, PrintArms, Rewrite, RewriteArms;
    match s
    case Return(line) => assert RewriteLines([line]) == [RewriteClosureReturn(line)];
    case Simple(lines) => KeptLines(lines);
    case If(arms, _, close) =>
      RewritePrintedArms(arms);
      KeptClose(close);
      RewriteLinesConcat(PrintArms(arms), [close]);
    case Switch(header, cases, close) =>
      KeptLines(header);
      RewritePrintedArms(cases);
      KeptClose(close);
      RewriteLinesConcat(header, PrintArms(cases));
      RewriteLinesConcat(header + PrintArms(cases), [close]);
    case Loop(header, body, close) =>
      KeptLines(header);
      RewritePrinted(body);
      KeptClose(close);
      RewriteLinesConcat(header, Print(body));
      RewriteLinesConcat(header + Print(body), [close]);
  }

  lemma {:induction false} RewritePrintedArms(arms: seq<Arm>)
    requires LaidArms(arms)
    ensures RewriteLines(PrintArms(arms)) == PrintArms(RewriteArms(arms))
    decreases arms
  {
    hide RewriteClosureReturn, NoReturns, Print, Rewrite;
    if arms != [] {
      KeptLines(arms[0].header);
      RewritePrinted(arms[0].body);
      RewritePrintedArms(arms[1..]);
      RewriteLinesConcat(arms[0].header, Print(arms[0].body));
      RewriteLinesConcat(arms[0].header + Print(arms[0].body), PrintArms(arms[1..]));
      assert RewriteArms(arms)[1..] == RewriteArms(arms[1..]);
    }
  }

  /** The last line that is not blank, trimmed. */
  function LastCode(lines: seq<string>): string {
    if lines == [] then ""
    else if Trim(lines[|lines| - 1]) != "" then Trim(lines[|lines| - 1])
    else LastCode(lines[..|lines| - 1])
  }

  /** The closure's lines: every line rewritten, closed by a success return unless one is there already. */
  function ClosureLines(lines: seq<string>): seq<string> {
    var cls := RewriteLines(lines);
    if IsReturnLine(LastCode(cls)) then cls else cls + ["return nil"]
  }

  function Closure(body: seq<Stmt>): seq<Stmt> {
    if IsReturnLine(LastCode(Print(Rewrite(body)))) then Rewrite(body) else Rewrite(body) + [Return("return nil")]
  }

  lemma {:induction false} PrintConcat(a: seq<Stmt>, b: seq<Stmt>)
    ensures Print(a + b) == Print(a) + Print(b)
  {
    if a == [] {
      assert a + b == b;
    } else {
      assert (a + b)[1..] == a[1..] + b;
      PrintConcat(a[1..], b);
    }
  }

  lemma ClosurePrinted(body: seq<Stmt>)
    requires Laid(body)
    ensures ClosureLines(Print(body)) == Print(Closure(body))
  {
    RewritePrinted(body);
    PrintConcat(Rewrite(body), [Return("return nil")]);
    assert Print([Return("return nil")]) == ["return nil"];
  }

  method LastCodeLine(lines: seq<string>) returns (tail: string)
    ensures tail == LastCode(lines)
  {
    assert lines[..|lines|] == lines;
    for k := |lines| downto 0
      invariant LastCode(lines) == LastCode(lines[..k])
    {
      assert lines[..k + 1][..k] == lines[..k];
      var t := Trim(lines[k]);
      if t != "" {
        return t;
      }
    }
    return "";
  }

  method WrapLines(lines: seq<string>) returns (cls: seq<string>)
    ensures cls == ClosureLines(lines)
  {
    cls := [];
    for i := 0 to |lines|
      invariant cls == RewriteLines(lines[..i])
    {
      var r := RewriteReturn(lines[i]);
      assert lines[..i + 1] == lines[..i] + [lines[i]];
      RewriteLinesConcat(lines[..i], [lines[i]]);
      cls := cls + [r];
    }
    assert lines[..|lines|] == lines;
    var tail := LastCodeLine(cls);
    if !IsReturnLine(tail) {
      cls := cls + ["return nil"];
    }
  }

  // ---------------------------------------------------------------- meaning

  /** What a simple statement does: continue in a new state, fail, leave or repeat an enclosing block, counted from the
      innermost, or go on with the next case. */
  datatype Effect<S> = Next(s: S) | Panic(s: S) | Leave(up: nat, s: S) | Again(up: nat, s: S) | Through(s: S)

  datatype Test<S> = Tested(holds: bool, s: S) | TestPanics(s: S)

  /** The arm that is taken; none when there are no more than `arm` of them. */
  datatype Choice<S> = Chosen(arm: nat, s: S) | ChoicePanics(s: S)

  datatype Fault<S, E> = Faults(e: E, s: S) | FaultPanics(s: S)

  /** The target language, left open: what simple statements, the conditions of an if, the labels of a switch, the
      first and the later turns of a loop and returned values mean. The first returned value is read off the state;
      computing the second may change the state. */
  datatype Language<!S, !V, !E> = Language(
    step: (string, S) -> Effect<S>,
    test: (string, S) -> Test<S>,
    choose: (string, seq<string>, S) -> Choice<S>,
    turn: (string, bool, S) -> Test<S>,
    value: (string, S) -> V,
    fault: (string, S) -> Fault<S, E>,
    data: S -> V,
    err: S -> E,
    nilData: V,
    nilErr: E)

  /** The names every body may use mean what the method declares them to mean. */
  ghost predicate Named<S(!new), V, E>(lang: Language<S, V, E>) {
    && (forall s :: lang.value("data", s) == lang.data(s) && lang.value("nil", s) == lang.nilData)
    && (forall s :: lang.fault("err", s) == Faults(lang.err(s), s) && lang.fault("nil", s) == Faults(lang.nilErr, s))
  }

  datatype Outcome<S, V, E> =
    | Fell(s: S)
    | Returned(v: V, e: E, s: S)
    | Panicked(s: S)
    | Left(up: nat, s: S)
    | Repeated(up: nat, s: S)
    | FellThrough(s: S)
    | Running
    | Illegal

  /** How a return line behaves in the method (two results) or in the closure (one). */
  function ExecReturn<S, V, E>(lang: Language<S, V, E>, closure: bool, line: string, s: S): Outcome<S, V, E>
    requires IsReturnLine(Trim(line))
  {
    match ReturnValues(line)
    case Bare => if closure then Illegal else Returned(lang.data(s), lang.err(s), s)
    case One(v) =>
      if !closure then Illegal
      else (match lang.fault(v, s) case Faults(e, s') => Returned(lang.nilData, e, s') case FaultPanics(s') => Panicked(s'))
    case Two(first, second) =>
      if closure then Illegal
      else (match lang.fault(second, s)
            case Faults(e, s') => Returned(lang.value(first, s), e, s')
            case FaultPanics(s') => Panicked(s'))
    case Malformed => Illegal
  }

  function Headers(arms: seq<Arm>): (headers: seq<string>)
    ensures |headers| == |arms|
  {
    seq(|arms|, k requires 0 <= k < |arms| => JoinLines(arms[k].header))
  }

  /** The conditions of a chain are asked in order; its else is not asked. */
  function Ask<S, V, E>(lang: Language<S, V, E>, headers: seq<string>, hasElse: bool, s: S): Choice<S> {
    if headers == [] || (hasElse && |headers| == 1) then Chosen(0, s)
    else
      match lang.test(headers[0], s)
      case TestPanics(s') => ChoicePanics(s')
      case Tested(holds, s') =>
        if holds then Chosen(0, s')
        else
          match Ask(lang, headers[1..], hasElse, s')
          case ChoicePanics(s'') => ChoicePanics(s'')
          case Chosen(k, s'') => Chosen(k + 1, s'')
  }

  /** A loop or switch ends where a statement inside leaves it. */
  function Settle<S, V, E>(o: Outcome<S, V, E>): Outcome<S, V, E> {
    if !o.Left? then o else if o.up == 0 then Fell(o.s) else Left(o.up - 1, o.s)
  }

  /** Runs statements for at most `fuel` loop turns. */
  function Exec<S, V, E>(lang: Language<S, V, E>, closure: bool, list: seq<Stmt>, s: S, fuel: nat): Outcome<S, V, E>
    decreases fuel, list
  {
    if list == [] then Fell(s)
    else
      var o := ExecOne(lang, closure, list[0], s, fuel);
      if o.Fell? then Exec(lang, closure, list[1..], o.s, fuel) else o
  }

  function ExecOne<S, V, E>(lang: Language<S, V, E>, closure: bool, stmt: Stmt, s: S, fuel: nat): Outcome<S, V, E>
    decreases fuel, stmt
  {
    match stmt
    case Return(line) => if IsReturnLine(Trim(line)) then ExecReturn(lang, closure, line, s) else Illegal
    case Simple(lines) =>
      (match lang.step(JoinLines(lines), s)
       case Next(s') => Fell(s')
       case Panic(s') => Panicked(s')
       case Leave(up, s') => Left(up, s')
       case Again(up, s') => Repeated(up, s')
       case Through(s') => FellThrough(s'))
    case If(arms, hasElse, _) =>
      (match Ask(lang, Headers(arms), hasElse, s)
       case ChoicePanics(s') => Panicked(s')
       case Chosen(k, s') => if k < |arms| then Exec(lang, closure, arms[k].body, s', fuel) else Fell(s'))
    case Switch(header, cases, _) =>
      (match lang.choose(JoinLines(header), Headers(cases), s)
       case ChoicePanics(s') => Panicked(s')
       case Chosen(k, s') => if k < |cases| then Settle(ExecCases(lang, closure, cases, k, s', fuel)) else Fell(s'))
    case Loop(header, body, _) => ExecLoop(lang, closure, header, body, true, s, fuel)
  }

  /** Case `k` and those it falls through to. */
  function ExecCases<S, V, E>(lang: Language<S, V, E>, closure: bool, cases: seq<Arm>, k: nat, s: S, fuel: nat): Outcome<S, V, E>
    requires k < |cases|
    decreases fuel, cases, |cases| - k
  {
    var o := Exec(lang, closure, cases[k].body, s, fuel);
    if !o.FellThrough? then o
    else if k + 1 < |cases| then ExecCases(lang, closure, cases, k + 1, o.s, fuel)
    else Illegal
  }

  function ExecLoop<S, V, E>(lang: Language<S, V, E>, closure: bool, header: seq<string>, body: seq<Stmt>, first: bool,
                             s: S, fuel: nat): Outcome<S, V, E>
    decreases fuel, body
  {
    match lang.turn(JoinLines(header), first, s)
    case TestPanics(s') => Panicked(s')
    case Tested(holds, s') =>
      if !holds then Fell(s')
      else if fuel == 0 then Running
      else
        var o := Exec(lang, closure, body, s', fuel - 1);
        if o.Fell? || (o.Repeated? && o.up == 0) then ExecLoop(lang, closure, header, body, false, o.s, fuel - 1)
        else if o.Repeated? then Repeated(o.up - 1, o.s)
        else Settle(o)
  }

  /** What the wrapped method returns, and whether the transaction was committed. */
  datatype Wrapped<S, V, E> = Ends(v: V, e: E, committed: bool, s: S) | WrapPanics(s: S) | StillRunning | DoesNotCompile

  /** The wrapper runs the closure; it commits when the closure returns nil and then returns the
      accumulated data, otherwise it rolls back and returns the closure's error. */
  function RunWrapped<S, V, E(==)>(lang: Language<S, V, E>, body: seq<Stmt>, s: S, fuel: nat): Wrapped<S, V, E> {
    match Exec(lang, true, Closure(body), s, fuel)
    case Returned(_, e, s') =>
      if e == lang.nilErr then Ends(lang.data(s'), lang.nilErr, true, s') else Ends(lang.nilData, e, false, s')
    case Panicked(s') => WrapPanics(s')
    case Running => StillRunning
    case _ => DoesNotCompile
  }

  /** How an execution of the original corresponds to one of the closure. */
  ghost predicate Matches<S, V, E>(lang: Language<S, V, E>, o: Outcome<S, V, E>, c: Outcome<S, V, E>) {
    match o
    case Returned(_, e, s) => c == Returned(lang.nilData, e, s)
    case Illegal => true
    case _ => c == o
  }

  lemma ReturnMatches<S(!new), V, E>(lang: Language<S, V, E>, line: string, s: S)
    requires Named(lang) && IsReturnLine(Trim(line))
    requires ReturnValues(line).Two? || ReturnValues(line).Bare?
    ensures IsReturnLine(Trim(RewriteClosureReturn(line)))
    ensures Matches(lang, ExecReturn(lang, false, line, s), ExecReturn(lang, true, RewriteClosureReturn(line), s))
  {
    hide IsReturnLine, Trim, RewriteClosureReturn, ReturnValues;
    RewriteKeepsError(line);
  }

  lemma ReturnLineMatches<S(!new), V, E>(lang: Language<S, V, E>, line: string, s: S, fuel: nat)
    requires Named(lang)
    ensures Matches(lang, ExecOne(lang, false, Return(line), s, fuel), ExecOne(lang, true, RewriteOne(Return(line)), s, fuel))
  {
    hide IsReturnLine, Trim, RewriteClosureReturn, ReturnValues;
    if IsReturnLine(Trim(line)) && (ReturnValues(line).Two? || ReturnValues(line).Bare?) {
      ReturnMatches(lang, line, s);
    }
  }

  lemma SettleMatches<S(!new), V, E>(lang: Language<S, V, E>, o: Outcome<S, V, E>, c: Outcome<S, V, E>)
    requires Matches(lang, o, c)
    ensures Matches(lang, Settle(o), Settle(c))
  {
  }

  lemma SameHeaders(arms: seq<Arm>)
    ensures Headers(RewriteArms(arms)) == Headers(arms)
  {
    hide JoinLines, RewriteArms, Rewrite;
    RewriteArmsAt(arms, 0);
    var again := RewriteArms(arms);
    forall k: nat | k < |arms| ensures Headers(again)[k] == Headers(arms)[k] {
      RewriteArmsAt(arms, k);
    }
  }

  /** The rewritten body follows the original statement by statement. */
  lemma {:induction false} ExecMatches<S(!new), V, E>(lang: Language<S, V, E>, list: seq<Stmt>, s: S, fuel: nat)
    requires Named(lang)
    ensures Matches(lang, Exec(lang, false, list, s, fuel), Exec(lang, true, Rewrite(list), s, fuel))
    decreases fuel, list
  {
    hide ExecOne, Named, RewriteOne;
    if list != [] {
      ExecOneMatches(lang, list[0], s, fuel);
      var o := ExecOne(lang, false, list[0], s, fuel);
      assert Rewrite(list)[1..] == Rewrite(list[1..]) && Rewrite(list)[0] == RewriteOne(list[0]);
      if o.Fell? {
        ExecMatches(lang, list[1..], o.s, fuel);
      }
    }
  }

  lemma {:induction false} ExecOneMatches<S(!new), V, E>(lang: Language<S, V, E>, stmt: Stmt, s: S, fuel: nat)
    requires Named(lang)
    ensures Matches(lang, ExecOne(lang, false, stmt, s, fuel), ExecOne(lang, true, RewriteOne(stmt), s, fuel))
    decreases fuel, stmt
  {
    hide Named, Exec, ExecCases, ExecLoop, ExecReturn, Headers, Rewrite, RewriteArms, Ask, Settle, Matches, JoinLines;
    match stmt
    case Return(line) => ReturnLineMatches(lang, line, s, fuel);
    case Simple(lines) => SimpleMatches(lang, lines, s, fuel);
    case If(arms, hasElse, close) =>
      SameHeaders(arms);
      var c := Ask(lang, Headers(arms), hasElse, s);
      if c.Chosen? {
        RewriteArmsAt(arms, c.arm);
        FellMatches(lang, c.s);
        if c.arm < |arms| {
          ExecMatches(lang, arms[c.arm].body, c.s, fuel);
        }
      } else {
        PanicMatches(lang, c.s);
      }
    case Switch(header, cases, close) =>
      SameHeaders(cases);
      var c := lang.choose(JoinLines(header), Headers(cases), s);
      if c.Chosen? {
        RewriteArmsAt(cases, c.arm);
        FellMatches(lang, c.s);
        if c.arm < |cases| {
          ExecCasesMatch(lang, cases, c.arm, c.s, fuel);
          SettleMatches(lang, ExecCases(lang, false, cases, c.arm, c.s, fuel),
                        ExecCases(lang, true, RewriteArms(cases), c.arm, c.s, fuel));
        }
      } else {
        PanicMatches(lang, c.s);
      }
    case Loop(header, body, close) => ExecLoopMatches(lang, header, body, true, s, fuel);
  }

  lemma SimpleMatches<S(!new), V, E>(lang: Language<S, V, E>, lines: seq<string>, s: S, fuel: nat)
    ensures Matches(lang, ExecOne(lang, false, Simple(lines), s, fuel), ExecOne(lang, true, Simple(lines), s, fuel))
  {
  }

  lemma FellMatches<S(!new), V, E>(lang: Language<S, V, E>, s: S)
    ensures Matches(lang, Fell(s), Fell(s))
  {
  }

  lemma PanicMatches<S(!new), V, E>(lang: Language<S, V, E>, s: S)
    ensures Matches(lang, Panicked(s), Panicked(s))
  {
  }

  lemma {:induction false} ExecCasesMatch<S(!new), V, E>(lang: Language<S, V, E>, cases: seq<Arm>, k: nat, s: S, fuel: nat)
    requires Named(lang) && k < |cases|
    ensures |RewriteArms(cases)| == |cases|
    ensures Matches(lang, ExecCases(lang, false, cases, k, s, fuel), ExecCases(lang, true, RewriteArms(cases), k, s, fuel))
    decreases fuel, cases, |cases| - k
  {
    hide Named, Exec, Rewrite, RewriteArms;
    RewriteArmsAt(cases, k);
    ExecMatches(lang, cases[k].body, s, fuel);
    var o := Exec(lang, false, cases[k].body, s, fuel);
    if o.FellThrough? && k + 1 < |cases| {
      ExecCasesMatch(lang, cases, k + 1, o.s, fuel);
    }
  }

  lemma {:induction false} ExecLoopMatches<S(!new), V, E>(lang: Language<S, V, E>, header: seq<string>, body: seq<Stmt>,
                                                          first: bool, s: S, fuel: nat)
    requires Named(lang)
    ensures Matches(lang, ExecLoop(lang, false, header, body, first, s, fuel),
                    ExecLoop(lang, true, header, Rewrite(body), first, s, fuel))
    decreases fuel, body
  {
    hide Named, Exec, Rewrite, JoinLines;
    var t := lang.turn(JoinLines(header), first, s);
    if t.Tested? && t.holds && fuel > 0 {
      ExecMatches(lang, body, t.s, fuel - 1);
      var o := Exec(lang, false, body, t.s, fuel - 1);
      if o.Fell? || (o.Repeated? && o.up == 0) {
        ExecLoopMatches(lang, header, body, false, o.s, fuel - 1);
      }
    }
  }

  lemma {:induction false} ExecConcat<S, V, E>(lang: Language<S, V, E>, c: bool, a: seq<Stmt>, b: seq<Stmt>, s: S, fuel: nat)
    ensures var o := Exec(lang, c, a, s, fuel);
            Exec(lang, c, a + b, s, fuel) == if o.Fell? then Exec(lang, c, b, o.s, fuel) else o
    decreases a
  {
    hide ExecOne;
    if a == [] {
      assert a + b == b;
    } else {
      assert (a + b)[1..] == a[1..] + b && (a + b)[0] == a[0];
      var o := ExecOne(lang, c, a[0], s, fuel);
      if o.Fell? {
        ExecConcat(lang, c, a[1..], b, o.s, fuel);
      }
    }
  }

  // ---------------------------------------------------------------- the end of a body

  lemma {:induction false} LaidConcat(a: seq<Stmt>, b: seq<Stmt>)
    ensures Laid(a + b) <==> Laid(a) && Laid(b)
  {
    hide LaidOne;
    if a == [] {
      assert a + b == b;
    } else {
      assert (a + b)[1..] == a[1..] + b && (a + b)[0] == a[0];
      LaidConcat(a[1..], b);
    }
  }

  lemma {:induction false} LastCodeConcat(a: seq<string>, b: seq<string>)
    ensures LastCode(a + b) == if LastCode(b) != "" then LastCode(b) else LastCode(a)
  {
    hide Trim;
    if b == [] {
      assert a + b == a;
    } else {
      var n := |b| - 1;
      assert (a + b)[..|a| + n] == a + b[..n];
      LastCodeConcat(a, b[..n]);
    }
  }

  lemma {:induction false} LastOfNoReturns(lines: seq<string>)
    requires NoReturns(lines)
    ensures !IsReturnLine(LastCode(lines))
  {
    hide Trim;
    if lines != [] {
      LastOfNoReturns(lines[..|lines| - 1]);
    } else {
      assert !IsReturnLine("");
    }
  }

  lemma ClosingIsLast(lines: seq<string>, close: string)
    requires Closing(close)
    ensures LastCode(lines + [close]) == Trim(close)
  {
    hide Trim;
    assert (lines + [close])[..|lines|] == lines;
  }

  lemma LastOfOne(s: Stmt)
    requires LaidOne(s) && !s.Return?
    ensures !IsReturnLine(LastCode(PrintOne(s)))
  {
    hide Trim, IsReturnLine, LastCode, Print, PrintArms;
    match s
    case Simple(lines) => LastOfNoReturns(lines);
    case If(arms, _, close) => ClosingIsLast(PrintArms(arms), close);
    case Switch(header, cases, close) => ClosingIsLast(header + PrintArms(cases), close);
    case Loop(header, body, close) => ClosingIsLast(header + Print(body), close);
  }

  lemma PrintedOne(s: Stmt)
    ensures Print([s]) == PrintOne(s)
  {
    hide PrintOne;
    assert Print([s][1..]) == [];
  }

  /** A body that can run off its end does not end in a return line. */
  lemma {:induction false} FallingHasNoTail<S, V, E>(lang: Language<S, V, E>, c: bool, list: seq<Stmt>, s: S, fuel: nat)
    requires Laid(list) && Exec(lang, c, list, s, fuel).Fell?
    ensures !IsReturnLine(LastCode(Print(list)))
    decreases |list|
  {
    hide Print, PrintOne, LaidOne, IsReturnLine, LastCode, Trim;
    if list == [] {
      EmptyHasNoTail();
    } else {
      var n := |list| - 1;
      var init, last := list[..n], list[n];
      assert list == init + [last];
      ExecConcat(lang, c, init, [last], s, fuel);
      LaidConcat(init, [last]);
      PrintConcat(init, [last]);
      PrintedOne(last);
      LastCodeConcat(Print(init), PrintOne(last));
      FallingHasNoTail(lang, c, init, s, fuel);
      var o := Exec(lang, c, init, s, fuel);
      OnlyOneFalls(lang, c, last, o.s, fuel);
      LastOfOne(last);
    }
  }

  lemma EmptyHasNoTail()
    ensures !IsReturnLine(LastCode(Print([])))
  {
    assert LastCode([]) == "" && !IsReturnLine("");
  }

  lemma OnlyOneFalls<S, V, E>(lang: Language<S, V, E>, c: bool, last: Stmt, s: S, fuel: nat)
    requires Exec(lang, c, [last], s, fuel).Fell?
    ensures !last.Return?
  {
    assert [last][0] == last;
    assert last.Return? ==> !ExecOne(lang, c, last, s, fuel).Fell?;
  }

  lemma StaysReturn(indent: string, v: string)
    requires AllSpace(indent) && Tight(v)
    ensures IsReturnLine(Trim(indent + ("return " + v)))
  {
    if v == "" {
      TrimOf(indent, RETURN, " ");
      assert indent + ("return " + v) == indent + RETURN + " ";
    } else {
      RestOf(v);
      TrimOf(indent, "return " + v, "");
      assert indent + ("return " + v) == indent + ("return " + v) + "";
    }
  }

  /** A return line stays one. */
  lemma RewriteStaysReturn(line: string)
    requires IsReturnLine(Trim(line))
    ensures IsReturnLine(Trim(RewriteClosureReturn(line)))
  {
    hide Trim, IsReturnLine, Leading, Split;
    var rest := ReturnRest(Trim(line));
    LeadingIsSpace(line);
    if rest == "" {
      ErrIsAtom();
      StaysReturn(Leading(line), "err");
      assert Leading(line) + "return err" == Leading(line) + ("return " + "err");
    } else if FirstValueEnd(rest) >= 0 && FirstValueEnd(rest) < |rest| {
      var v := Trim(rest[FirstValueEnd(rest) + 1..]);
      var a, c := TrimSplit(rest[FirstValueEnd(rest) + 1..]);
      StaysReturn(Leading(line), v);
      assert Leading(line) + "return " + v == Leading(line) + ("return " + v);
    }
  }

  lemma {:induction false} RewriteStaysLaid(list: seq<Stmt>)
    requires Laid(list)
    ensures Laid(Rewrite(list))
    decreases list
  {
    hide LaidOne;
    if list != [] {
      RewriteOneStaysLaid(list[0]);
      RewriteStaysLaid(list[1..]);
      assert Rewrite(list)[1..] == Rewrite(list[1..]);
    }
  }

  lemma {:induction false} RewriteOneStaysLaid(s: Stmt)
    requires LaidOne(s)
    ensures LaidOne(RewriteOne(s))
    decreases s
  {
    hide NoReturns, Closing, IsReturnLine, Trim, RewriteClosureReturn, Laid, LaidArms, Rewrite, RewriteArms;
    match s
    case Return(line) => RewriteStaysReturn(line);
    case Simple(_) =>
    case If(arms, _, _) => RewriteArmsStayLaid(arms);
    case Switch(_, cases, _) => RewriteArmsStayLaid(cases);
    case Loop(_, body, _) => RewriteStaysLaid(body);
  }

  lemma {:induction false} RewriteArmsStayLaid(arms: seq<Arm>)
    requires LaidArms(arms)
    ensures LaidArms(RewriteArms(arms))
    decreases arms
  {
    hide NoReturns, Laid, Rewrite;
    if arms != [] {
      RewriteStaysLaid(arms[0].body);
      RewriteArmsStayLaid(arms[1..]);
      assert RewriteArms(arms)[1..] == RewriteArms(arms[1..]);
    }
  }

  /** The return put at the end of the closure succeeds. */
  lemma NilReturn<S(!new), V, E>(lang: Language<S, V, E>, s: S, fuel: nat)
    requires Named(lang)
    ensures Exec(lang, true, [Return("return nil")], s, fuel) == Returned(lang.nilData, lang.nilErr, s)
  {
    NilLine();
    assert [Return("return nil")][1..] == [];
    hide IsReturnLine, Trim, ReturnValues;
  }

  lemma NilLine()
    ensures Trim("return nil") == "return nil" && IsReturnLine("return nil") && ReturnValues("return nil") == One("nil")
  {
    assert Atom("nil") by {
      assert forall j :: 0 <= j < 3 ==> "nil"[j] != ',';
    }
    RestOf("nil");
    TrimNone("return nil");
    TrimNone("nil");
    NoCommaWhole("nil");
    assert "return nil" == "return " + "nil";
    hide Trim, Split, IsReturnLine;
  }

  /** The wrapped method returns the original's error on every execution, commits exactly when that error is nil, and
      then delivers the data accumulated when the original returned; otherwise its data is nil. Where the original
      runs off its end, the wrapped method commits and delivers the data accumulated there. */
  ghost predicate Preserved<S(!new), V, E>(lang: Language<S, V, E>, body: seq<Stmt>, s: S, fuel: nat) {
    var w := RunWrapped(lang, body, s, fuel);
    match Exec(lang, false, body, s, fuel)
    case Returned(v, e, s') =>
      w == if e == lang.nilErr then Ends(lang.data(s'), e, true, s') else Ends(lang.nilData, e, false, s')
    case Fell(s') => Laid(body) ==> w == Ends(lang.data(s'), lang.nilErr, true, s')
    case Panicked(s') => w == WrapPanics(s')
    case Running => w == StillRunning
    case _ => true
  }

  lemma WrapPreserves<S(!new), V, E>(lang: Language<S, V, E>, body: seq<Stmt>, s: S, fuel: nat)
    requires Named(lang)
    ensures Preserved(lang, body, s, fuel)
  {
    hide Named, Rewrite, Print, IsReturnLine, LastCode, Laid, Exec;
    ExecMatches(lang, body, s, fuel);
    ExecConcat(lang, true, Rewrite(body), [Return("return nil")], s, fuel);
    var o := Exec(lang, false, body, s, fuel);
    if o.Fell? {
      NilReturn(lang, o.s, fuel);
      if Laid(body) {
        RewriteStaysLaid(body);
        FallingHasNoTail(lang, true, Rewrite(body), s, fuel);
      }
    }
  }

  // ---------------------------------------------------------------- when the data is the same

  /** Whenever the original returns successfully, the wrapped method delivers the data it returned. */
  ghost predicate SameData<S(!new), V, E>(lang: Language<S, V, E>, body: seq<Stmt>, s: S, fuel: nat) {
    var o, w := Exec(lang, false, body, s, fuel), RunWrapped(lang, body, s, fuel);
    o.Returned? && o.e == lang.nilErr ==> w.Ends? && w.committed && w.e == o.e && w.v == o.v
  }

  /** What every language agrees on: the declared names, second values that leave the accumulated data alone,
      and error expressions that are never nil when they have a value. */
  ghost predicate Fair<S(!new), V, E>(lang: Language<S, V, E>, errors: set<string>) {
    && Named(lang)
    && (forall text, s :: lang.fault(text, s).Faults? ==> lang.data(lang.fault(text, s).s) == lang.data(s))
    && (forall text, s :: text in errors && lang.fault(text, s).Faults? ==> lang.fault(text, s).e != lang.nilErr)
  }

  /** The return line names the accumulated data, leaves both results implicit, returns an error, or is none
      the method could have. */
  predicate SafeReturn(errors: set<string>, line: string)
    requires IsReturnLine(Trim(line))
  {
    match ReturnValues(line)
    case Two(first, second) => first == "data" || second in errors
    case _ => true
  }

  /** Control can pass the end of the statements, as far as their text tells. */
  predicate CanPass(list: seq<Stmt>)
    decreases list
  {
    list == [] || (CanPassOne(list[0]) && CanPass(list[1..]))
  }

  predicate CanPassOne(stmt: Stmt)
    decreases stmt
  {
    match stmt
    case Return(_) => false
    case Simple(_) => true
    case If(arms, hasElse, _) => !hasElse || arms == [] || CanPassArms(arms)
    case Switch(_, _, _) => true
    case Loop(_, _, _) => true
  }

  predicate CanPassArms(arms: seq<Arm>)
    decreases arms
  {
    arms != [] && (CanPass(arms[0].body) || CanPassArms(arms[1..]))
  }

  /** Every return that control can come to is safe. */
  predicate SafeReturns(errors: set<string>, list: seq<Stmt>)
    decreases list
  {
    list == [] || (SafeReturnsOne(errors, list[0]) && (CanPassOne(list[0]) ==> SafeReturns(errors, list[1..])))
  }

  predicate SafeReturnsOne(errors: set<string>, stmt: Stmt)
    decreases stmt
  {
    match stmt
    case Return(line) => IsReturnLine(Trim(line)) ==> SafeReturn(errors, line)
    case Simple(_) => true
    case If(arms, _, _) => SafeReturnsArms(errors, arms)
    case Switch(_, cases, _) => SafeReturnsArms(errors, cases)
    case Loop(_, body, _) => SafeReturns(errors, body)
  }

  predicate SafeReturnsArms(errors: set<string>, arms: seq<Arm>)
    decreases arms
  {
    arms == [] || (SafeReturns(errors, arms[0].body) && SafeReturnsArms(errors, arms[1..]))
  }

  lemma {:induction false} ArmSafe(errors: set<string>, arms: seq<Arm>, k: nat)
    requires k < |arms|
    ensures SafeReturnsArms(errors, arms) ==> SafeReturns(errors, arms[k].body)
    ensures CanPass(arms[k].body) ==> CanPassArms(arms)
    decreases k
  {
    hide SafeReturns, CanPass;
    if k > 0 {
      ArmSafe(errors, arms[1..], k - 1);
    }
  }

  /** A successful return that names the data, or control that falls through where the text allows it. */
  ghost predicate Delivers<S(!new), V, E>(lang: Language<S, V, E>, o: Outcome<S, V, E>, passes: bool) {
    (o.Returned? && o.e == lang.nilErr ==> o.v == lang.data(o.s)) && (o.Fell? ==> passes)
  }

  lemma ReturnDelivers<S(!new), V, E>(lang: Language<S, V, E>, errors: set<string>, line: string, s: S)
    requires Fair(lang, errors) && IsReturnLine(Trim(line)) && SafeReturn(errors, line)
    ensures Delivers(lang, ExecReturn(lang, false, line, s), false)
  {
    hide ReturnValues, IsReturnLine;
  }

  lemma {:induction false} SafeDelivers<S(!new), V, E>(lang: Language<S, V, E>, errors: set<string>, list: seq<Stmt>, s: S, fuel: nat)
    requires Fair(lang, errors) && SafeReturns(errors, list)
    ensures Delivers(lang, Exec(lang, false, list, s, fuel), CanPass(list))
    decreases fuel, list
  {
    hide Fair, ExecOne, SafeReturnsOne, CanPassOne;
    if list != [] {
      SafeDeliversOne(lang, errors, list[0], s, fuel);
      var o := ExecOne(lang, false, list[0], s, fuel);
      if o.Fell? {
        SafeDelivers(lang, errors, list[1..], o.s, fuel);
      }
    }
  }

  lemma {:induction false} SafeDeliversOne<S(!new), V, E>(lang: Language<S, V, E>, errors: set<string>, stmt: Stmt, s: S, fuel: nat)
    requires Fair(lang, errors) && SafeReturnsOne(errors, stmt)
    ensures Delivers(lang, ExecOne(lang, false, stmt, s, fuel), CanPassOne(stmt))
    decreases fuel, stmt
  {
    hide Fair, Exec, ExecCases, ExecLoop, ExecReturn, SafeReturn, IsReturnLine, Headers, JoinLines, Ask,
         SafeReturns, SafeReturnsArms, CanPass, CanPassArms;
    match stmt
    case Return(line) =>
      if IsReturnLine(Trim(line)) {
        ReturnDelivers(lang, errors, line, s);
      }
    case Simple(_) =>
    case If(arms, hasElse, _) =>
      var c := Ask(lang, Headers(arms), hasElse, s);
      AskInRange(lang, Headers(arms), hasElse, s);
      if c.Chosen? && c.arm < |arms| {
        ArmSafe(errors, arms, c.arm);
        SafeDelivers(lang, errors, arms[c.arm].body, c.s, fuel);
      }
    case Switch(header, cases, _) =>
      var c := lang.choose(JoinLines(header), Headers(cases), s);
      if c.Chosen? && c.arm < |cases| {
        SafeDeliversCases(lang, errors, cases, c.arm, c.s, fuel);
      }
    case Loop(header, body, _) => SafeDeliversLoop(lang, errors, header, body, true, s, fuel);
  }

  /** An if takes no arm only without an else. */
  lemma {:induction false} AskInRange<S(!new), V, E>(lang: Language<S, V, E>, headers: seq<string>, hasElse: bool, s: S)
    ensures var c := Ask(lang, headers, hasElse, s);
            c.Chosen? ==> c.arm <= |headers| && (hasElse && headers != [] ==> c.arm < |headers|)
  {
    if headers != [] && !(hasElse && |headers| == 1) {
      var t := lang.test(headers[0], s);
      AskInRange(lang, headers[1..], hasElse, t.s);
    }
  }

  lemma {:induction false} SafeDeliversCases<S(!new), V, E>(lang: Language<S, V, E>, errors: set<string>, cases: seq<Arm>, k: nat,
                                                             s: S, fuel: nat)
    requires Fair(lang, errors) && SafeReturnsArms(errors, cases) && k < |cases|
    ensures Delivers(lang, ExecCases(lang, false, cases, k, s, fuel), true)
    decreases fuel, cases, |cases| - k
  {
    hide Fair, Exec, SafeReturns, SafeReturnsArms, CanPass, CanPassArms;
    ArmSafe(errors, cases, k);
    SafeDelivers(lang, errors, cases[k].body, s, fuel);
    var o := Exec(lang, false, cases[k].body, s, fuel);
    if o.FellThrough? && k + 1 < |cases| {
      SafeDeliversCases(lang, errors, cases, k + 1, o.s, fuel);
    }
  }

  lemma {:induction false} SafeDeliversLoop<S(!new), V, E>(lang: Language<S, V, E>, errors: set<string>, header: seq<string>,
                                                            body: seq<Stmt>, first: bool, s: S, fuel: nat)
    requires Fair(lang, errors) && SafeReturns(errors, body)
    ensures Delivers(lang, ExecLoop(lang, false, header, body, first, s, fuel), true)
    decreases fuel, body
  {
    hide Fair, Exec, SafeReturns, CanPass, JoinLines;
    var t := lang.turn(JoinLines(header), first, s);
    if t.Tested? && t.holds && fuel > 0 {
      SafeDelivers(lang, errors, body, t.s, fuel - 1);
      var o := Exec(lang, false, body, t.s, fuel - 1);
      if o.Fell? || (o.Repeated? && o.up == 0) {
        SafeDeliversLoop(lang, errors, header, body, false, o.s, fuel - 1);
      }
    }
  }

  /** Where every reachable return is safe, the wrapped method delivers the original's data in every language. */
  lemma SafeKeepsData<S(!new), V, E>(lang: Language<S, V, E>, errors: set<string>, body: seq<Stmt>, s: S, fuel: nat)
    requires Fair(lang, errors) && SafeReturns(errors, body)
    ensures SameData(lang, body, s, fuel)
  {
    hide Exec, RunWrapped;
    SafeDelivers(lang, errors, body, s, fuel);
    WrapPreserves(lang, body, s, fuel);
  }

  /** A language whose state is the list of answers its questions will get: simple statements do nothing, the
      accumulated data is `true`, every other first value is not, and errors are nil unless listed. */
  function Oracle(errors: set<string>): Language<seq<nat>, bool, bool> {
    Language(
      (text: string, s: seq<nat>) => Next(s),
      (text: string, s: seq<nat>) => Answer(s),
      (text: string, labels: seq<string>, s: seq<nat>) => if s == [] then Chosen(|labels|, []) else Chosen(s[0], s[1..]),
      (text: string, first: bool, s: seq<nat>) => Answer(s),
      (text: string, s: seq<nat>) => text == "data",
      (text: string, s: seq<nat>) => Faults(text in errors, s),
      (s: seq<nat>) => true,
      (s: seq<nat>) => "err" in errors,
      false,
      false)
  }

  function Answer(s: seq<nat>): Test<seq<nat>> {
    if s == [] then Tested(false, []) else Tested(s[0] == 1, s[1..])
  }

  lemma OracleFair(errors: set<string>)
    requires "nil" !in errors
    ensures Fair(Oracle(errors), errors)
  {
    assert "data"[0] != "nil"[0];
  }

  /** Answers that lead to arm `k` of `n`, or past all of them. */
  function ArmPath(n: nat, hasElse: bool, k: nat): seq<nat>
    requires k <= n
  {
    if n == 0 || (hasElse && n == 1) then []
    else if k == 0 then [1]
    else [0] + ArmPath(n - 1, hasElse, k - 1)
  }

  lemma {:induction false} ArmPathLeads(errors: set<string>, headers: seq<string>, hasElse: bool, k: nat, rest: seq<nat>)
    requires k <= |headers| && (hasElse && headers != [] ==> k < |headers|)
    ensures Ask(Oracle(errors), headers, hasElse, ArmPath(|headers|, hasElse, k) + rest) == Chosen(k, rest)
    decreases |headers|
  {
    var p := ArmPath(|headers|, hasElse, k);
    if headers == [] || (hasElse && |headers| == 1) {
      assert p + rest == rest;
    } else {
      FirstAnswer(if k == 0 then 1 else 0, if k == 0 then [] else p[1..], rest);
      if k == 0 {
        assert [1] + [] == p && [] + rest == rest;
      } else {
        assert [0] + p[1..] == p;
        ArmPathLeads(errors, headers[1..], hasElse, k - 1, rest);
      }
    }
  }

  lemma FirstAnswer(a: nat, p: seq<nat>, rest: seq<nat>)
    ensures var s := ([a] + p) + rest; s != [] && s[0] == a && s[1..] == p + rest
    ensures Answer(([a] + p) + rest) == Tested(a == 1, p + rest)
  {
  }

  /** The first arm that control can pass. */
  function PassArm(arms: seq<Arm>): (k: nat)
    requires CanPassArms(arms)
    ensures k < |arms| && CanPass(arms[k].body)
    decreases |arms|
  {
    if CanPass(arms[0].body) then 0 else 1 + PassArm(arms[1..])
  }

  /** Answers that lead past the end of the statements. */
  function PassPath(list: seq<Stmt>): seq<nat>
    requires CanPass(list)
    decreases list
  {
    if list == [] then [] else PassPathOne(list[0]) + PassPath(list[1..])
  }

  function PassPathOne(stmt: Stmt): seq<nat>
    requires CanPassOne(stmt)
    decreases stmt
  {
    match stmt
    case Simple(_) => []
    case If(arms, hasElse, _) =>
      if !hasElse || arms == [] then ArmPath(|arms|, hasElse, |arms|)
      else ArmPath(|arms|, hasElse, PassArm(arms)) + PassPath(arms[PassArm(arms)].body)
    case Switch(_, cases, _) => [|cases|]
    case Loop(_, _, _) => [0]
  }

  /** The first arm with a return that is not safe. */
  function UnsafeArm(errors: set<string>, arms: seq<Arm>): (k: nat)
    requires !SafeReturnsArms(errors, arms)
    ensures k < |arms| && !SafeReturns(errors, arms[k].body)
    decreases |arms|
  {
    if !SafeReturns(errors, arms[0].body) then 0 else 1 + UnsafeArm(errors, arms[1..])
  }

  /** Answers that lead to a return that is not safe. */
  function UnsafePath(errors: set<string>, list: seq<Stmt>): seq<nat>
    requires !SafeReturns(errors, list)
    decreases list
  {
    if !SafeReturnsOne(errors, list[0]) then UnsafePathOne(errors, list[0])
    else PassPathOne(list[0]) + UnsafePath(errors, list[1..])
  }

  function UnsafePathOne(errors: set<string>, stmt: Stmt): seq<nat>
    requires !SafeReturnsOne(errors, stmt)
    decreases stmt
  {
    match stmt
    case Return(_) => []
    case If(arms, hasElse, _) =>
      var k := UnsafeArm(errors, arms);
      ArmPath(|arms|, hasElse, k) + UnsafePath(errors, arms[k].body)
    case Switch(_, cases, _) =>
      var k := UnsafeArm(errors, cases);
      [k] + UnsafePath(errors, cases[k].body)
    case Loop(_, body, _) => [1] + UnsafePath(errors, body)
  }

  /** How deep loops are nested. */
  function LoopDepth(list: seq<Stmt>): nat
    decreases list
  {
    if list == [] then 0 else Max(LoopDepthOne(list[0]), LoopDepth(list[1..]))
  }

  function Max(a: nat, b: nat): nat {
    if a > b then a else b
  }

  function LoopDepthOne(stmt: Stmt): nat
    decreases stmt
  {
    match stmt
    case Return(_) => 0
    case Simple(_) => 0
    case If(arms, _, _) => LoopDepthArms(arms)
    case Switch(_, cases, _) => LoopDepthArms(cases)
    case Loop(_, body, _) => 1 + LoopDepth(body)
  }

  function LoopDepthArms(arms: seq<Arm>): nat
    decreases arms
  {
    if arms == [] then 0 else Max(LoopDepth(arms[0].body), LoopDepthArms(arms[1..]))
  }

  lemma {:induction false} ArmDepth(arms: seq<Arm>, k: nat)
    requires k < |arms|
    ensures LoopDepth(arms[k].body) <= LoopDepthArms(arms)
    decreases k
  {
    hide LoopDepth;
    if k > 0 {
      ArmDepth(arms[1..], k - 1);
    }
  }

  lemma Reassociate(p: seq<nat>, q: seq<nat>, rest: seq<nat>)
    ensures (p + q) + rest == p + (q + rest)
  {
  }

  lemma {:induction false} PassPathPasses(errors: set<string>, list: seq<Stmt>, rest: seq<nat>, fuel: nat)
    requires CanPass(list)
    ensures Exec(Oracle(errors), false, list, PassPath(list) + rest, fuel) == Fell(rest)
    decreases list
  {
    hide Oracle, ExecOne, CanPassOne, PassPathOne;
    if list != [] {
      var p, q := PassPathOne(list[0]), PassPath(list[1..]);
      Reassociate(p, q, rest);
      PassPathPassesOne(errors, list[0], q + rest, fuel);
      PassPathPasses(errors, list[1..], rest, fuel);
    } else {
      assert [] + rest == rest;
    }
  }

  lemma {:induction false} PassPathPassesOne(errors: set<string>, stmt: Stmt, rest: seq<nat>, fuel: nat)
    requires CanPassOne(stmt)
    ensures ExecOne(Oracle(errors), false, stmt, PassPathOne(stmt) + rest, fuel) == Fell(rest)
    decreases stmt
  {
    hide Exec, ExecCases, Ask, ArmPath, PassPath, CanPass, CanPassArms, JoinLines;
    match stmt
    case Simple(_) => assert [] + rest == rest;
    case If(arms, hasElse, _) =>
      if !hasElse || arms == [] {
        ArmPathLeads(errors, Headers(arms), hasElse, |arms|, rest);
      } else {
        var k := PassArm(arms);
        Reassociate(ArmPath(|arms|, hasElse, k), PassPath(arms[k].body), rest);
        ArmPathLeads(errors, Headers(arms), hasElse, k, PassPath(arms[k].body) + rest);
        PassPathPasses(errors, arms[k].body, rest, fuel);
      }
    case Switch(_, cases, _) => FirstAnswer(|cases|, [], rest);
    case Loop(_, _, _) => FirstAnswer(0, [], rest);
  }

  /** The return the path leads to succeeds with something else than the accumulated data. */
  ghost predicate Differs(o: Outcome<seq<nat>, bool, bool>) {
    o.Returned? && o.e == false && o.v == false
  }

  lemma {:induction false} UnsafePathDiffers(errors: set<string>, list: seq<Stmt>, rest: seq<nat>, fuel: nat)
    requires !SafeReturns(errors, list) && fuel >= LoopDepth(list)
    ensures Differs(Exec(Oracle(errors), false, list, UnsafePath(errors, list) + rest, fuel))
    decreases list
  {
    hide Oracle, ExecOne, SafeReturnsOne, CanPassOne, PassPathOne, UnsafePathOne, LoopDepthOne;
    if !SafeReturnsOne(errors, list[0]) {
      UnsafePathDiffersOne(errors, list[0], rest, fuel);
    } else {
      var p, q := PassPathOne(list[0]), UnsafePath(errors, list[1..]);
      Reassociate(p, q, rest);
      PassPathPassesOne(errors, list[0], q + rest, fuel);
      UnsafePathDiffers(errors, list[1..], rest, fuel);
    }
  }

  lemma {:induction false} UnsafePathDiffersOne(errors: set<string>, stmt: Stmt, rest: seq<nat>, fuel: nat)
    requires !SafeReturnsOne(errors, stmt) && fuel >= LoopDepthOne(stmt)
    ensures Differs(ExecOne(Oracle(errors), false, stmt, UnsafePathOne(errors, stmt) + rest, fuel))
    decreases stmt
  {
    hide Exec, Ask, ArmPath, UnsafePath, SafeReturns, SafeReturnsArms, LoopDepth, LoopDepthArms, JoinLines;
    match stmt
    case Return(_) =>
    case If(arms, hasElse, _) =>
      var k := UnsafeArm(errors, arms);
      var q := UnsafePath(errors, arms[k].body);
      Reassociate(ArmPath(|arms|, hasElse, k), q, rest);
      ArmPathLeads(errors, Headers(arms), hasElse, k, q + rest);
      ArmDepth(arms, k);
      UnsafePathDiffers(errors, arms[k].body, rest, fuel);
    case Switch(_, cases, _) =>
      var k := UnsafeArm(errors, cases);
      FirstAnswer(k, UnsafePath(errors, cases[k].body), rest);
      ArmDepth(cases, k);
      UnsafePathDiffers(errors, cases[k].body, rest, fuel);
    case Loop(_, body, _) =>
      FirstAnswer(1, UnsafePath(errors, body), rest);
      UnsafePathDiffers(errors, body, rest, fuel - 1);
  }

  lemma DiffersNotSame(errors: set<string>, body: seq<Stmt>, s: seq<nat>, fuel: nat)
    requires "nil" !in errors && Differs(Exec(Oracle(errors), false, body, s, fuel))
    ensures !SameData(Oracle(errors), body, s, fuel)
  {
    OracleFair(errors);
    WrapPreserves(Oracle(errors), body, s, fuel);
    hide Exec, RunWrapped;
  }

  /** The wrapped method delivers the original's data in every language, from every state, exactly when every
      return that control can come to names the accumulated data, leaves the results implicit, or returns one of
      the error expressions. */
  lemma SameDataIff(errors: set<string>, body: seq<Stmt>)
    requires "nil" !in errors
    ensures (forall lang: Language<seq<nat>, bool, bool>, s, fuel :: Fair(lang, errors) ==> SameData(lang, body, s, fuel))
            <==> SafeReturns(errors, body)
  {
    hide SameData, Fair, Oracle;
    if SafeReturns(errors, body) {
      forall lang: Language<seq<nat>, bool, bool>, s, fuel | Fair(lang, errors) ensures SameData(lang, body, s, fuel) {
        SafeKeepsData(lang, errors, body, s, fuel);
      }
    } else {
      var s, fuel := UnsafePath(errors, body), LoopDepth(body);
      assert s + [] == s;
      UnsafePathDiffers(errors, body, [], fuel);
      OracleFair(errors);
      DiffersNotSame(errors, body, s, fuel);
      assert Fair(Oracle(errors), errors) && !SameData(Oracle(errors), body, s, fuel);
    }
  }

  /** How a return of two written values reads, and what the closure makes of it. */
  lemma TwoValues(first: string, second: string)
    requires Whole(first) && Tight(first) && first != "" && Atom(second) && Tight(second) && second != ""
    ensures var line := "return " + (first + ("," + (" " + second)));
            && Trim(line) == line && IsReturnLine(line) && ReturnValues(line) == Two(first, second)
            && RewriteClosureReturn(line) == "return " + second
  {
    var tail := " " + second;
    var rest := first + ("," + tail);
    SpacedAtom(second);
    TwoParts(first, tail, rest);
    TwoRest(first, second, tail, rest);
    hide Whole, Atom, Tight, Split, ReturnValues, IsReturnLine, RewriteClosureReturn, Trim;
    TwoLine("return " + rest, rest, first, second);
  }

  lemma TwoRest(first: string, second: string, tail: string, rest: string)
    requires first != "" && second != "" && Tight(first) && Tight(second)
    requires tail == " " + second && rest == first + ("," + tail) && Split(rest) == [first, tail]
    ensures Tight(rest) && ValuesOf(rest) == Two(first, second) && FirstValueEnd(rest) == |first| && |first| < |rest|
    ensures Trim(rest[|first| + 1..]) == second
  {
    TrimNone(first);
    TrimSpaced(second);
    TightEnds(first, tail, rest);
    AfterFirst(first, tail, rest);
    hide Trim, Split, Tight;
    TwoSplit(rest, first, tail);
  }

  lemma TwoSplit(rest: string, first: string, tail: string)
    requires Split(rest) == [first, tail] && rest != "" && Trim(first) != "" && Trim(tail) != ""
    ensures ValuesOf(rest) == Two(Trim(first), Trim(tail)) && FirstValueEnd(rest) == |first|
  {
    hide Trim, Split;
  }

  lemma AfterFirst(first: string, tail: string, rest: string)
    requires rest == first + ("," + tail)
    ensures |first| < |rest| && rest != "" && rest[|first| + 1..] == tail
  {
  }

  lemma TrimSpaced(s: string)
    requires Tight(s)
    ensures Trim(" " + s) == s
  {
    TrimOf(" ", s, "");
    assert " " + s + "" == " " + s;
  }

  lemma TightEnds(first: string, tail: string, rest: string)
    requires first != "" && Tight(first) && tail != "" && !IsSpace(tail[|tail| - 1]) && rest == first + ("," + tail)
    ensures Tight(rest)
  {
    assert rest[0] == first[0] && rest[|rest| - 1] == tail[|tail| - 1];
  }

  lemma TwoLine(line: string, rest: string, first: string, second: string)
    requires line == "return " + rest && Tight(rest) && rest != ""
    requires ValuesOf(rest) == Two(first, second) && FirstValueEnd(rest) == |first| && |first| < |rest|
    requires Trim(rest[|first| + 1..]) == second
    ensures Trim(line) == line && IsReturnLine(line) && ReturnValues(line) == Two(first, second)
    ensures RewriteClosureReturn(line) == "return " + second
  {
    RestOf(rest);
    TrimNone(line);
    NoIndent(line);
    hide Trim, Split, IsReturnLine, Leading, ValuesOf, FirstValueEnd, Tight, ReturnRest;
    assert ReturnRest(Trim(line)) == rest;
    assert "" + "return " + second == "return " + second;
  }

  lemma NoIndent(line: string)
    requires line != "" && !IsBlank(line[0])
    ensures Leading(line) == ""
  {
  }

  lemma TwoParts(first: string, tail: string, rest: string)
    requires Whole(first) && Atom(tail) && rest == first + ("," + tail)
    ensures Split(rest) == [first, tail]
  {
    var parts := [first, tail];
    assert parts[1..] == [tail] && JoinComma([tail]) == tail;
    assert JoinComma(parts) == first + "," + tail == rest;
    SplitJoin(parts);
  }

  lemma SpacedAtom(p: string)
    requires Atom(p)
    ensures Atom(" " + p)
  {
    var s := " " + p;
    forall j | 0 <= j < |s| ensures !TopComma(s, j) {
      if j > 0 {
        assert s[..j] == " " + p[..j - 1];
        RunConcat(START, " ", p[..j - 1]);
        assert " "[..0] == "" && Run(START, " ") == START;
        assert !TopComma(p, j - 1);
      }
    }
  }

  /** A body that succeeds with anything but the accumulated data loses it. */
  lemma OtherResultLost(errors: set<string>, first: string)
    requires Whole(first) && Tight(first) && first != "" && first != "data" && "nil" !in errors
    ensures !SafeReturns(errors, [Return("return " + (first + ("," + (" " + "nil"))))])
  {
    assert forall j :: 0 <= j < 3 ==> "nil"[j] != ',';
    TwoValues(first, "nil");
    hide ReturnValues, IsReturnLine, Trim;
  }
}
