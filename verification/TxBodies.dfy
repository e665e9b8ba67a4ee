/** Bodies worked through the transaction repair: some that it preserves, and some that its gate then rejects. */
module TxBodies {
  import opened Options
  import opened Text
  import opened CallArgs
  import opened StoreCall
  import opened TxWrap
  import opened TxThread

  // ---------------------------------------------------------------- bodies the gate rejects after their repair

  const SITE := TxCall("s", "Ins", "c", "tx")
  const SITE_HEAD := "s.Ins(c,"

  lemma SiteHead()
    ensures Head(SITE) == SITE_HEAD && Wordy(SITE)
  {
    assert "s" + "." + "Ins" + "(" + "c" + "," == SITE_HEAD;
  }

  /** The one call of a text gets its handle. */
  lemma ThreadsSite(w: string, p: string, r: string)
    requires p == Head(SITE) && (w == "" || (IsSpace(w[|w| - 1]) && forall i :: 0 <= i < |w| ==> w[i] != '('))
    requires r != "" && !IsSpace(r[0]) && r[0] != 't' && forall i :: 0 <= i < |r| ==> r[i] != '('
    ensures ThreadAll(w + (p + (" " + r)), [SITE]) == w + (p + (" tx, " + r))
    ensures Reaches(w + (p + (" " + r)), Head(SITE), "tx")
  {
    SiteHead();
    HeadIsPattern(SITE);
    hide Head, Pattern, Reaches, IsSpace;
    SiteThreaded(p, r);
    var y := p + (" " + r);
    ReachesTail(w, y, p, "tx");
    if w != "" {
      ThreadPrefix(w, y, p, "tx");
    } else {
      assert w + y == y && w + (p + (" tx, " + r)) == p + (" tx, " + r);
    }
    AloneThreaded(w + y);
  }

  lemma SiteThreaded(p: string, r: string)
    requires Pattern(p) && r != "" && !IsSpace(r[0]) && r[0] != 't' && forall i :: 0 <= i < |r| ==> r[i] != '('
    ensures Thread(p + (" " + r), p, "tx") == p + (" tx, " + r) && Reaches(p + (" " + r), p, "tx")
  {
    var rest := " " + r;
    var y := p + rest;
    NotLed(r);
    PlainUnthreaded(r, p);
    assert y[..|p|] == p && y[|p|..] == rest && y[0..|p|] == p;
    assert Site(y, p, "tx", 0);
    hide Leads, Pattern, DropBlanks;
    PatternShape(p);
    ThreadFound(y, p, rest, p, "tx");
    assert " " + "tx" + ", " == " tx, ";
  }

  lemma AloneThreaded(t: string)
    ensures ThreadAll(t, [SITE]) == Thread(t, Head(SITE), "tx")
  {
    assert [SITE][..0] == [];
  }

  lemma NotLed(r: string)
    requires r != "" && !IsSpace(r[0]) && r[0] != 't'
    ensures !Leads(" " + r, "tx") && DropBlanks(" " + r) == r
  {
    TrimLeftOf(" ", r);
    HasAtChar(r, 0, "tx", 0);
    assert (" " + r)[1..] == r;
  }

  lemma PlainUnthreaded(r: string, p: string)
    requires Pattern(p) && forall i :: 0 <= i < |r| ==> r[i] != '('
    ensures Thread(r, p, "tx") == r
  {
    IndexFirst(r, 0, p);
    var m :| 0 <= m < |p| - 1 && p[m] == '(';
    forall j: nat ensures !HasAt(r, j, p) {
      HasAtChar(r, j, p, m);
    }
  }

  /** The opening line over the store has no capital I. */
  lemma OpeningLacks(x: string)
    requires x != "" && x[0] == 'I'
    ensures !Contains(OpeningLine("c", "s"), x)
  {
    var line := OpeningLine("c", "s");
    OpeningPieces();
    forall i | 0 <= i <= |line| ensures !HasAt(line, i, x) {
      HasAtChar(line, i, x, 0);
    }
  }

  lemma OpeningPieces()
    ensures var line := OpeningLine("c", "s"); forall i :: 0 <= i < |line| ==> line[i] != 'I'
  {
    OpeningStart();
    assert forall i :: 0 <= i < |DATABASE| ==> DATABASE[i] != 'I';
    assert forall i :: 0 <= i < |FUNC| ==> FUNC[i] != 'I';
  }

  lemma OpeningStart()
    ensures var a := "if err := utils." + OPENING + "c" + ", " + "s"; forall i :: 0 <= i < |a| ==> a[i] != 'I'
  {
    var a := "if err := utils.";
    assert forall i :: 0 <= i < |a| ==> a[i] != 'I';
    assert forall i :: 0 <= i < |OPENING| ==> OPENING[i] != 'I';
  }

  lemma OneRepair(body: string, c: DBCall)
    requires TxOf(c, "s.") == SITE && c.tx == "tx"
    ensures RepairOf(body, [c], "s.", WrapperText("c", "s", ClosureLines(SplitLines(ThreadAll(body, [SITE])))), [SITE], "c")
    ensures forall i :: Judged([c], i) <==> i == 0
  {
    assert [c][1..] == [] && TxCalls([c], "s.") == [SITE] + [] == [SITE];
    assert [SITE][1..] == [] && CtxCount([SITE], "c") == 1;
    assert FirstWithMost([SITE], 0, "c");
  }

  /** The repair of a body on one line, judged for its one call. */
  lemma OneLineGate(body: string, c: DBCall, t: string)
    requires TxOf(c, "s.") == SITE && c.tx == "tx" && c.name == "Ins" && Spelled(c)
    requires t == ThreadAll(body, [SITE]) && OneLine(t) && !Contains(RewriteClosureReturn(t), GateText(c))
    ensures !GatePasses(WrapperText("c", "s", ClosureLines(SplitLines(t))), [c])
  {
    OneRepair(body, c);
    GateTextCallLike(c);
    assert SplitLines(t) == [t] by {
      assert LineEnd(t, 0) == |t|;
    }
    assert GateText(c)[0] == 'I';
    hide GateText, Contains, RepairOf, OpeningLine, ClosureLines, WrapperText, KeptPart, RewriteClosureReturn, CallLike, Spelled;
    RewriteKeepsCall(t, GateText(c));
    OpeningLacks(GateText(c));
    GatePassesIff(body, [c], "s.", WrapperText("c", "s", ClosureLines(SplitLines(t))), [SITE], "c");
    assert Judged([c], 0) && [c][0] == c;
  }

  lemma {:induction false} RunPlain(l: Lex, s: string)
    requires forall i :: 0 <= i < |s| ==> IsWordChar(s[i]) || s[i] == '.' || s[i] == ',' || s[i] == ' '
    requires CallArgs.InCode(l)
    ensures Run(l, s) == l
  {
    if s != "" {
      RunPlain(l, s[..|s| - 1]);
    }
  }

  /** A name and bracketed words form one value. */
  lemma BracketedWhole(a: string, b: string)
    requires forall i :: 0 <= i < |a| ==> IsWordChar(a[i]) || a[i] == '.'
    requires forall i :: 0 <= i < |b| ==> IsWordChar(b[i]) || b[i] == ',' || b[i] == ' '
    ensures Whole(a + ("(" + (b + ")")))
  {
    var s := a + ("(" + (b + ")"));
    InsideBrackets(a, b, s, |b|);
    assert s[..|a| + 1 + |b|] == s[..|s| - 1] && s[|s| - 1] == ')';
    assert Run(START, s) == START;
    forall j | 0 <= j < |s| ensures !TopComma(s, j) {
      if |a| < j < |s| - 1 {
        InsideBrackets(a, b, s, j - |a| - 1);
      } else if j < |a| {
        assert s[j] == a[j];
      }
    }
  }

  lemma InsideBrackets(a: string, b: string, s: string, k: nat)
    requires forall i :: 0 <= i < |a| ==> IsWordChar(a[i]) || a[i] == '.'
    requires forall i :: 0 <= i < |b| ==> IsWordChar(b[i]) || b[i] == ',' || b[i] == ' '
    requires s == a + ("(" + (b + ")")) && k <= |b|
    ensures Run(START, s[..|a| + 1 + k]) == START.(depth := 1)
  {
    var inner := START.(depth := 1);
    RunPlain(START, a);
    RunConcat(START, a, "(");
    assert "("[..0] == "" && Run(START, "(") == inner;
    RunPlain(inner, b[..k]);
    RunConcat(START, a + "(", b[..k]);
    assert s[..|a| + 1 + k] == a + "(" + b[..k];
  }

  /** A store call in the first value of a return has a site and gets its handle, but the closure drops it: the
      repaired body fails the gate. */
  lemma FirstValueCallLost()
    ensures var c, body := DBCall("s", "Ins", "c", "tx", ["a"]), "return " + (Head(SITE) + (" " + LOST_REST));
            var wrapped := WrapperText("c", "s", ClosureLines(SplitLines(ThreadAll(body, [SITE]))));
            && RepairOf(body, [c], "s.", wrapped, [SITE], "c")
            && Reaches(body, Head(SITE), "tx") && !GatePasses(wrapped, [c])
  {
    var c, body := DBCall("s", "Ins", "c", "tx", ["a"]), "return " + (Head(SITE) + (" " + LOST_REST));
    LostCall(c, Head(SITE), LOST_REST, body);
  }

  lemma LostCall(c: DBCall, p: string, r: string, body: string)
    requires c == DBCall("s", "Ins", "c", "tx", ["a"]) && p == Head(SITE) && r == LOST_REST
    requires body == "return " + (p + (" " + r))
    ensures var wrapped := WrapperText("c", "s", ClosureLines(SplitLines(ThreadAll(body, [SITE]))));
            RepairOf(body, [c], "s.", wrapped, [SITE], "c") && Reaches(body, Head(SITE), "tx") && !GatePasses(wrapped, [c])
  {
    LostThreaded(p, r, body);
    OneRepair(body, c);
    hide Head, WrapperText, ClosureLines, SplitLines, ThreadAll, RepairOf, Reaches, GatePasses, RewriteClosureReturn, OneLine;
    DroppedCall(body, c, ThreadAll(body, [SITE]));
  }

  lemma LostThreaded(p: string, r: string, body: string)
    requires p == Head(SITE) && r == LOST_REST && body == "return " + (p + (" " + r))
    ensures var t := ThreadAll(body, [SITE]);
            OneLine(t) && RewriteClosureReturn(t) == "return " + "nil" && Reaches(body, Head(SITE), "tx")
  {
    LostLine(p, r);
    LostStarts(r);
    hide Head, ThreadAll, Reaches, RewriteClosureReturn, OneLine;
    ThreadsSite("return ", p, r);
  }

  lemma LostStarts(r: string)
    requires r == LOST_REST
    ensures r != "" && !IsSpace(r[0]) && r[0] != 't' && forall i :: 0 <= i < |r| ==> r[i] != '('
  {
  }

  const LOST_REST := "a" + (")" + ("," + (" " + "nil")))

  /** The threaded line, seen as a return of two values. */
  lemma LostLine(p: string, r: string)
    requires p == Head(SITE) && r == LOST_REST
    ensures var t := "return " + (p + (" tx, " + r)); OneLine(t) && RewriteClosureReturn(t) == "return " + "nil"
  {
    var b := "c," + " tx, " + "a";
    BracketedWhole("s.Ins", b);
    NilIsAtom();
    SiteHead();
    assert p == "s.Ins" + ("(" + "c,");
    var first := "s.Ins" + ("(" + (b + ")"));
    assert first[0] == 's' && first[|first| - 1] == ')';
    hide Whole, Atom, RewriteClosureReturn, Head;
    LostLineOf(p, r, "s.Ins", "c,", " tx, ", "a", "nil", b, first);
    LostOneLine(p, r);
  }

  lemma NilIsAtom()
    ensures Atom("nil") && Tight("nil")
  {
    assert forall j :: 0 <= j < 3 ==> "nil"[j] != ',';
  }

  lemma LostOneLine(p: string, r: string)
    requires p == SITE_HEAD && r == LOST_REST
    ensures OneLine("return " + (p + (" tx, " + r)))
  {
    assert OneLine(p) && OneLine(" tx, ") && OneLine("return ") && OneLine(r);
    assert OneLine(" tx, " + r);
    assert OneLine(p + (" tx, " + r));
  }

  lemma LostLineOf(p: string, r: string, name: string, ctx: string, mid: string, arg: string, second: string,
                   b: string, first: string)
    requires p == name + ("(" + ctx) && b == ctx + mid + arg && first == name + ("(" + (b + ")"))
    requires r == arg + (")" + ("," + (" " + second)))
    requires Whole(first) && Tight(first) && first != "" && Atom(second) && Tight(second) && second != ""
    ensures RewriteClosureReturn("return " + (p + (mid + r))) == "return " + second
  {
    hide Whole, Atom, Tight, RewriteClosureReturn;
    SamePieces(p, name, "(", ctx, mid, arg, ")", "," + (" " + second));
    TwoValues(first, second);
  }

  lemma SamePieces(p: string, a: string, b: string, c: string, d: string, e: string, f: string, g: string)
    requires p == a + (b + c)
    ensures p + (d + (e + (f + g))) == (a + (b + ((c + d + e) + f))) + g
  {
  }

  lemma DroppedCall(body: string, c: DBCall, t: string)
    requires c == DBCall("s", "Ins", "c", "tx", ["a"]) && t == ThreadAll(body, [SITE]) && OneLine(t)
    requires RewriteClosureReturn(t) == "return " + "nil"
    ensures !GatePasses(WrapperText("c", "s", ClosureLines(SplitLines(t))), [c])
  {
    hide RewriteClosureReturn, WrapperText, GatePasses, ThreadAll, ClosureLines;
    GateTextCallLike(c);
    NoParenNoCall("return " + "nil", GateText(c));
    OneLineGate(body, c, t);
  }

  /** A call without a context of its own is threaded under the default one and then searched for without any. */
  lemma EmptyContextFails()
    ensures var c, body := DBCall("s", "Ins", "", "tx", ["a"]), Head(SITE) + (" " + "a)");
            var wrapped := WrapperText("c", "s", ClosureLines(SplitLines(ThreadAll(body, [SITE]))));
            && RepairOf(body, [c], "s.", wrapped, [SITE], "c")
            && Reaches(body, Head(SITE), "tx") && !GatePasses(wrapped, [c])
  {
    var c, p, r := DBCall("s", "Ins", "", "tx", ["a"]), Head(SITE), "a)";
    var body := p + (" " + r);
    OneRepair(body, c);
    ThreadsSite("", p, r);
    assert "" + body == body && "" + (p + (" tx, " + r)) == p + (" tx, " + r);
    SiteHead();
    NoEmptyContext(p + (" tx, " + r), c);
    OneLineGate(body, c, p + (" tx, " + r));
  }

  lemma NoEmptyContext(t: string, c: DBCall)
    requires c == DBCall("s", "Ins", "", "tx", ["a"]) && t == SITE_HEAD + (" tx, " + "a)")
    ensures OneLine(t) && Spelled(c) && !Contains(RewriteClosureReturn(t), GateText(c))
  {
    var x := GateText(c);
    assert x[3] == '(' && x[4] == ',';
    assert t[0] == 's' && t[5] == '(' && t[6] == 'c';
    assert forall i :: 0 <= i < |t| && t[i] == '(' ==> i == 5;
    forall i | 0 <= i <= |t| ensures !HasAt(t, i, x) {
      HasAtChar(t, i, x, 3);
      HasAtChar(t, i, x, 4);
    }
    NotAReturn(t);
  }

  lemma NotAReturn(t: string)
    requires t != "" && !IsSpace(t[0]) && t[0] != 'r'
    ensures !IsReturnLine(Trim(t)) && RewriteClosureReturn(t) == t
  {
    TrimStarts(t);
    HasAtChar(Trim(t), 0, RETURN + " ", 0);
    HasAtChar(Trim(t), 0, RETURN + "\t", 0);
  }

  lemma TrimStarts(t: string)
    requires t != "" && !IsSpace(t[0])
    ensures Trim(t) != "" && Trim(t)[0] == t[0]
  {
    TrimRightStarts(t);
  }

  lemma {:induction false} TrimRightStarts(t: string)
    requires t != "" && !IsSpace(t[0])
    ensures TrimRight(t) != "" && TrimRight(t)[0] == t[0]
  {
    if |t| > 1 && IsSpace(t[|t| - 1]) {
      TrimRightStarts(t[..|t| - 1]);
    }
  }

  // ---------------------------------------------------------------- bodies without a call of their own

  predicate Parenless(s: string) {
    forall i :: 0 <= i < |s| ==> s[i] != '('
  }

  lemma {:induction false} ParenlessJoin(lines: seq<string>)
    requires forall k :: 0 <= k < |lines| ==> Parenless(lines[k])
    ensures Parenless(JoinLines(lines))
  {
    if |lines| > 1 {
      ParenlessJoin(lines[1..]);
      assert Parenless(lines[0]);
    } else if |lines| == 1 {
      assert Parenless(lines[0]);
    }
  }

  lemma NothingThreaded(t: string, tcs: seq<TxCall>, tx: string)
    requires Parenless(t) && forall j :: 0 <= j < |tcs| ==> Wordy(tcs[j]) && tcs[j].tx == tx
    ensures ThreadAll(t, tcs) == t
  {
    hide Wordy, Leads, Head, Pattern;
    forall j | 0 <= j < |tcs| ensures NoSite(t, Head(tcs[j]), tx) {
      HeadIsPattern(tcs[j]);
      HasNoHead(t, Head(tcs[j]));
    }
    AllThreaded(t, tcs, tx);
  }

  lemma HasNoHead(t: string, p: string)
    requires Parenless(t) && Pattern(p)
    ensures forall h: nat :: !HasAt(t, h, p)
  {
    var m :| 0 <= m < |p| - 1 && p[m] == '(';
    forall h: nat ensures !HasAt(t, h, p) {
      HasAtChar(t, h, p, m);
    }
  }

  /** Lines without a parenthesis or a newline. */
  predicate PlainLines(lines: seq<string>) {
    forall k :: 0 <= k < |lines| ==> Parenless(lines[k]) && OneLine(lines[k])
  }

  /** A laid-out body without a call of its own is repaired to the print of its closure. */
  lemma PlainBodyRepaired<S(!new), V, E>(stmts: seq<Stmt>, lines: seq<string>, calls: seq<DBCall>, receiver: string,
                                         wrapped: string, tcs: seq<TxCall>, ctx: string, tx: string,
                                         lang: Language<S, V, E>, s: S, fuel: nat)
    requires Laid(stmts) && Print(stmts) == lines && lines != [] && PlainLines(lines)
    requires RepairOf(JoinLines(lines), calls, receiver, wrapped, tcs, ctx)
    requires forall j :: 0 <= j < |tcs| ==> Wordy(tcs[j]) && tcs[j].tx == tx
    requires Named(lang)
    ensures wrapped == WrapperText(ctx, tcs[0].recv, Print(Closure(stmts))) && Preserved(lang, stmts, s, fuel)
  {
    hide Wordy, Head, Laid, Print, Parenless, OneLine, JoinLines, Named, Preserved, Closure;
    ParenlessJoin(lines);
    NothingThreaded(JoinLines(lines), tcs, tx);
    SplitJoinLines(lines);
    RepairedPreserves(JoinLines(lines), calls, receiver, wrapped, tcs, ctx, stmts, lang, s, fuel);
  }

  const NIL_ERR := "return " + ("nil" + ("," + (" " + "err")))
  const DATA_NIL := "return " + ("data" + ("," + (" " + "nil")))
  const NIL_OTHER := "return " + ("nil" + ("," + (" " + "other")))

  lemma NameIsAtom(v: string)
    requires v == "nil" || v == "err" || v == "data" || v == "other"
    ensures Whole(v) && Tight(v) && v != "" && Parenless(v) && OneLine(v)
  {
    assert forall i :: 0 <= i < |v| ==> IsWordChar(v[i]) && v[i] != '(' && v[i] != '\n' && v[i] != ',';
    RunPlain(START, v);
  }

  /** How the three returns read and what becomes of them. */
  lemma ReturnsRead()
    ensures Trim(NIL_ERR) == NIL_ERR && IsReturnLine(NIL_ERR) && ReturnValues(NIL_ERR) == Two("nil", "err")
    ensures Trim(DATA_NIL) == DATA_NIL && IsReturnLine(DATA_NIL) && ReturnValues(DATA_NIL) == Two("data", "nil")
    ensures Trim(NIL_OTHER) == NIL_OTHER && IsReturnLine(NIL_OTHER) && ReturnValues(NIL_OTHER) == Two("nil", "other")
    ensures RewriteClosureReturn(NIL_ERR) == "return " + "err" && RewriteClosureReturn(DATA_NIL) == "return " + "nil"
    ensures RewriteClosureReturn(NIL_OTHER) == "return " + "other"
  {
    NameIsAtom("nil");
    NameIsAtom("err");
    NameIsAtom("data");
    NameIsAtom("other");
    hide Whole, Atom, Tight, Trim, IsReturnLine, ReturnValues, RewriteClosureReturn;
    WholeIsAtom("nil");
    WholeIsAtom("err");
    WholeIsAtom("other");
    TwoValues("nil", "err");
    TwoValues("data", "nil");
    TwoValues("nil", "other");
  }

  lemma ReturnsPlain()
    ensures Parenless(NIL_ERR) && OneLine(NIL_ERR) && Parenless(DATA_NIL) && OneLine(DATA_NIL)
    ensures Parenless(NIL_OTHER) && OneLine(NIL_OTHER)
  {
    PlainTwo("nil", "err");
    PlainTwo("data", "nil");
    PlainTwo("nil", "other");
  }

  lemma PlainTwo(first: string, second: string)
    requires first == "nil" || first == "data"
    requires second == "nil" || second == "err" || second == "other"
    ensures var line := "return " + (first + ("," + (" " + second))); Parenless(line) && OneLine(line)
  {
    NameIsAtom(first);
    NameIsAtom(second);
    assert Parenless("return ") && OneLine("return ");
  }

  lemma CodeLine(t: string)
    requires t != "" && !IsSpace(t[0]) && t[0] != 'r'
    ensures NoReturns([t]) && Closing(t)
  {
    NotAReturn(t);
    TrimStarts(t);
  }

  // ---------------------------------------------------------------- an else-if chain

  /** A chain of two conditions, each with a return of its own, and a return behind it. */
  function Chain(h1: string, r1: string, h2: string, r2: string, close: string, r3: string): seq<Stmt> {
    [If([Arm([h1], [Return(r1)]), Arm([h2], [Return(r2)])], false, close), Return(r3)]
  }

  lemma OneReturn(r: string)
    ensures Print([Return(r)]) == [r] && Rewrite([Return(r)]) == [Return(RewriteClosureReturn(r))]
    ensures Laid([Return(r)]) <==> IsReturnLine(Trim(r))
  {
    hide Trim, IsReturnLine, RewriteClosureReturn;
    var list := [Return(r)];
    assert list[1..] == [];
    assert Print(list) == PrintOne(list[0]) + Print(list[1..]);
  }

  lemma ArmsNext(arm: Arm, arms: seq<Arm>)
    ensures PrintArms([arm] + arms) == arm.header + Print(arm.body) + PrintArms(arms)
    ensures RewriteArms([arm] + arms) == [Arm(arm.header, Rewrite(arm.body))] + RewriteArms(arms)
    ensures LaidArms([arm] + arms) <==> NoReturns(arm.header) && Laid(arm.body) && LaidArms(arms)
  {
    hide Print, Rewrite, Laid, NoReturns;
    var list := [arm] + arms;
    assert list[0] == arm && list[1..] == arms;
  }

  lemma ReturnArm(h: string, r: string, arms: seq<Arm>)
    ensures PrintArms([Arm([h], [Return(r)])] + arms) == [h, r] + PrintArms(arms)
    ensures RewriteArms([Arm([h], [Return(r)])] + arms) == [Arm([h], [Return(RewriteClosureReturn(r))])] + RewriteArms(arms)
    ensures LaidArms([Arm([h], [Return(r)])] + arms) <==> NoReturns([h]) && IsReturnLine(Trim(r)) && LaidArms(arms)
  {
    hide Print, Rewrite, RewriteClosureReturn, Laid, NoReturns, PrintArms, RewriteArms, LaidArms, IsReturnLine, Trim;
    ArmsNext(Arm([h], [Return(r)]), arms);
    OneReturn(r);
  }

  lemma NoArms()
    ensures PrintArms([]) == [] && RewriteArms([]) == [] && LaidArms([])
  {
  }

  /** A statement and a last return. */
  lemma ThenReturn(stmt: Stmt, r: string)
    ensures Print([stmt, Return(r)]) == PrintOne(stmt) + [r]
    ensures Rewrite([stmt, Return(r)]) == [RewriteOne(stmt), Return(RewriteClosureReturn(r))]
    ensures Laid([stmt, Return(r)]) <==> LaidOne(stmt) && IsReturnLine(Trim(r))
  {
    hide Trim, IsReturnLine, RewriteClosureReturn, PrintOne, RewriteOne, LaidOne;
    var list := [stmt, Return(r)];
    assert list[1..] == [Return(r)];
    assert Print(list) == PrintOne(list[0]) + Print(list[1..]);
    OneReturn(r);
    LaidReturn(list, stmt, r);
  }

  lemma LaidReturn(list: seq<Stmt>, stmt: Stmt, r: string)
    requires list == [stmt, Return(r)]
    ensures Laid(list) <==> LaidOne(stmt) && IsReturnLine(Trim(r))
  {
    hide Trim, IsReturnLine;
    assert list[1..] == [Return(r)];
    OneReturn(r);
    hide LaidOne;
  }

  lemma ChainShape(h1: string, r1: string, h2: string, r2: string, close: string, r3: string)
    ensures Print(Chain(h1, r1, h2, r2, close, r3)) == [h1, r1, h2, r2, close, r3]
    ensures Rewrite(Chain(h1, r1, h2, r2, close, r3)) ==
            Chain(h1, RewriteClosureReturn(r1), h2, RewriteClosureReturn(r2), close, RewriteClosureReturn(r3))
    ensures Laid(Chain(h1, r1, h2, r2, close, r3)) <==>
            && NoReturns([h1]) && NoReturns([h2]) && Closing(close)
            && IsReturnLine(Trim(r1)) && IsReturnLine(Trim(r2)) && IsReturnLine(Trim(r3))
  {
    hide Trim, IsReturnLine, RewriteClosureReturn, Print, Rewrite, Laid, PrintArms, RewriteArms, LaidArms, NoReturns, Closing;
    var a1, a2 := Arm([h1], [Return(r1)]), Arm([h2], [Return(r2)]);
    NoArms();
    ReturnArm(h2, r2, []);
    ReturnArm(h1, r1, [a2]);
    var b1, b2 := Arm([h1], [Return(RewriteClosureReturn(r1))]), Arm([h2], [Return(RewriteClosureReturn(r2))]);
    assert [a2] + [] == [a2] && [a1] + [a2] == [a1, a2] && [b2] + [] == [b2] && [b1] + [b2] == [b1, b2];
    ThenReturn(If([a1, a2], false, close), r3);
  }

  /** A body that ends in a return gets no other one. */
  lemma ClosedAlready(body: seq<Stmt>, lines: seq<string>, last: string)
    requires Print(Rewrite(body)) == lines + [last] && IsReturnLine(Trim(last))
    ensures Closure(body) == Rewrite(body)
  {
    hide IsReturnLine, Trim, Print, Rewrite;
    assert (lines + [last])[..|lines|] == lines;
    EmptyIsNoReturn();
  }

  lemma EmptyIsNoReturn()
    ensures !IsReturnLine("")
  {
  }

  /** The second condition is asked only where the first fails. */
  lemma ChainRuns<S(!new), V, E>(lang: Language<S, V, E>, h1: string, r1: string, h2: string, r2: string, close: string,
                                 r3: string, s: S, s1: S, s2: S, fuel: nat)
    requires IsReturnLine(Trim(r1)) && IsReturnLine(Trim(r2)) && IsReturnLine(Trim(r3))
    ensures var o := Exec(lang, false, Chain(h1, r1, h2, r2, close, r3), s, fuel);
            && (lang.test(h1, s) == Tested(true, s1) ==> o == ExecReturn(lang, false, r1, s1))
            && (lang.test(h1, s) == Tested(false, s1) && lang.test(h2, s1) == Tested(true, s2) ==>
                  o == ExecReturn(lang, false, r2, s2))
            && (lang.test(h1, s) == Tested(false, s1) && lang.test(h2, s1) == Tested(false, s2) ==>
                  o == ExecReturn(lang, false, r3, s2))
  {
    var arms := [Arm([h1], [Return(r1)]), Arm([h2], [Return(r2)])];
    JoinOneLine(h1);
    JoinOneLine(h2);
    assert Headers(arms) == [h1, h2];
    AskTwo(lang, h1, h2, s, s1, s2);
    ReturnRuns(lang, r1, s1, fuel);
    ReturnRuns(lang, r2, s2, fuel);
    ReturnRuns(lang, r3, s2, fuel);
    hide Trim, IsReturnLine, JoinLines, ReturnValues, Headers, ExecReturn, Exec, Ask;
    var chain := If(arms, false, close);
    FirstRuns(lang, chain, [Return(r3)], s, fuel);
    assert [chain] + [Return(r3)] == [chain, Return(r3)];
  }

  lemma AskTwo<S(!new), V, E>(lang: Language<S, V, E>, h1: string, h2: string, s: S, s1: S, s2: S)
    ensures lang.test(h1, s) == Tested(true, s1) ==> Ask(lang, [h1, h2], false, s) == Chosen(0, s1)
    ensures lang.test(h1, s) == Tested(false, s1) && lang.test(h2, s1) == Tested(true, s2) ==>
              Ask(lang, [h1, h2], false, s) == Chosen(1, s2)
    ensures lang.test(h1, s) == Tested(false, s1) && lang.test(h2, s1) == Tested(false, s2) ==>
              Ask(lang, [h1, h2], false, s) == Chosen(2, s2)
  {
    assert [h1, h2][1..] == [h2] && [h2][1..] == [];
    assert Ask(lang, [], false, s1) == Chosen(0, s1) && Ask(lang, [], false, s2) == Chosen(0, s2);
    AskNext(lang, h2, [], s1, s2, 0, s2);
    AskNext(lang, h1, [h2], s, s1, 0, s2);
    AskNext(lang, h1, [h2], s, s1, 1, s2);
    hide Ask;
    assert [h1] + [h2] == [h1, h2] && [h2] + [] == [h2];
  }

  lemma AskNext<S(!new), V, E>(lang: Language<S, V, E>, h: string, rest: seq<string>, s: S, t: S, k: nat, u: S)
    ensures lang.test(h, s) == Tested(true, t) ==> Ask(lang, [h] + rest, false, s) == Chosen(0, t)
    ensures lang.test(h, s) == Tested(false, t) && Ask(lang, rest, false, t) == Chosen(k, u) ==>
              Ask(lang, [h] + rest, false, s) == Chosen(k + 1, u)
  {
    assert ([h] + rest)[1..] == rest;
  }

  lemma ReturnRuns<S(!new), V, E>(lang: Language<S, V, E>, r: string, s: S, fuel: nat)
    requires IsReturnLine(Trim(r))
    ensures Exec(lang, false, [Return(r)], s, fuel) == ExecReturn(lang, false, r, s)
    ensures !ExecReturn(lang, false, r, s).Fell?
  {
    hide Trim, IsReturnLine, ReturnValues;
    assert [Return(r)][1..] == [];
  }

  /** A line that is no return, on its own and without a parenthesis. */
  predicate HeadLine(h: string) {
    NoReturns([h]) && Parenless(h) && OneLine(h)
  }

  /** A return line without a parenthesis, and what the closure makes of it. */
  predicate ReturnLine(r: string, q: string) {
    IsReturnLine(Trim(r)) && Parenless(r) && OneLine(r) && RewriteClosureReturn(r) == q
  }

  lemma ChainCloses(h1: string, r1: string, h2: string, r2: string, close: string, r3: string, q1: string, q2: string, q3: string)
    requires HeadLine(h1) && HeadLine(h2) && HeadLine(close) && Closing(close)
    requires ReturnLine(r1, q1) && ReturnLine(r2, q2) && ReturnLine(r3, q3)
    ensures Laid(Chain(h1, r1, h2, r2, close, r3)) && Print(Chain(h1, r1, h2, r2, close, r3)) == [h1, r1, h2, r2, close, r3]
    ensures Print(Closure(Chain(h1, r1, h2, r2, close, r3))) == [h1, q1, h2, q2, close, q3]
  {
    RewriteStaysReturn(r3);
    hide Trim, IsReturnLine, RewriteClosureReturn, Chain, Closure, NoReturns, Closing, Print, Laid, Rewrite, Parenless, OneLine;
    var body := Chain(h1, r1, h2, r2, close, r3);
    ChainShape(h1, r1, h2, r2, close, r3);
    ChainShape(h1, q1, h2, q2, close, q3);
    assert [h1, q1, h2, q2, close] + [q3] == [h1, q1, h2, q2, close, q3];
    ClosedAlready(body, [h1, q1, h2, q2, close], q3);
  }

  lemma SixPlain(a: string, b: string, c: string, d: string, e: string, f: string)
    requires Parenless(a) && OneLine(a) && Parenless(b) && OneLine(b) && Parenless(c) && OneLine(c)
    requires Parenless(d) && OneLine(d) && Parenless(e) && OneLine(e) && Parenless(f) && OneLine(f)
    ensures PlainLines([a, b, c, d, e, f])
  {
    hide Parenless, OneLine;
  }

  /** An else-if chain through the repair: its text is rewritten arm by arm, and it is preserved. */
  lemma ElseIfPreserved<S(!new), V, E>(h1: string, r1: string, h2: string, r2: string, close: string, r3: string,
                                       q1: string, q2: string, q3: string,
                                       calls: seq<DBCall>, receiver: string, wrapped: string, tcs: seq<TxCall>, ctx: string,
                                       tx: string, lang: Language<S, V, E>, s: S, fuel: nat)
    requires HeadLine(h1) && HeadLine(h2) && HeadLine(close) && Closing(close)
    requires ReturnLine(r1, q1) && ReturnLine(r2, q2) && ReturnLine(r3, q3)
    requires RepairOf(JoinLines([h1, r1, h2, r2, close, r3]), calls, receiver, wrapped, tcs, ctx)
    requires (forall j :: 0 <= j < |tcs| ==> Wordy(tcs[j]) && tcs[j].tx == tx) && Named(lang)
    ensures wrapped == WrapperText(ctx, tcs[0].recv, [h1, q1, h2, q2, close, q3])
    ensures Preserved(lang, Chain(h1, r1, h2, r2, close, r3), s, fuel)
  {
    ChainCloses(h1, r1, h2, r2, close, r3, q1, q2, q3);
    SixPlain(h1, r1, h2, r2, close, r3);
    hide *;
    PlainBodyRepaired(Chain(h1, r1, h2, r2, close, r3), [h1, r1, h2, r2, close, r3], calls, receiver, wrapped, tcs, ctx, tx,
                      lang, s, fuel);
  }

  const IF_A := "if a {"
  const ELSE_IF_B := "} else if b {"

  lemma CodeWord(line: string)
    requires line == IF_A || line == ELSE_IF_B || line == "}"
    ensures HeadLine(line) && Closing(line)
  {
    CodeLine(line);
    assert forall i :: 0 <= i < |line| ==> line[i] != '(' && line[i] != '\n';
  }

  lemma ThreeReturns()
    ensures ReturnLine(NIL_ERR, "return " + "err") && ReturnLine(DATA_NIL, "return " + "nil")
    ensures ReturnLine(NIL_OTHER, "return " + "other")
  {
    ReturnsRead();
    ReturnsPlain();
    hide Trim, IsReturnLine, ReturnValues, RewriteClosureReturn, Parenless, OneLine;
  }

  /** `return nil, err` under the first condition, `return data, nil` under the second, another error behind them. */
  lemma ElseIfExample<S(!new), V, E>(calls: seq<DBCall>, receiver: string, wrapped: string, tcs: seq<TxCall>, ctx: string,
                                     tx: string, lang: Language<S, V, E>, s: S, s1: S, s2: S, fuel: nat)
    requires RepairOf(JoinLines([IF_A, NIL_ERR, ELSE_IF_B, DATA_NIL, "}", NIL_OTHER]), calls, receiver, wrapped, tcs, ctx)
    requires (forall j :: 0 <= j < |tcs| ==> Wordy(tcs[j]) && tcs[j].tx == tx) && Named(lang)
    ensures wrapped == WrapperText(ctx, tcs[0].recv,
              [IF_A, "return " + "err", ELSE_IF_B, "return " + "nil", "}", "return " + "other"])
    ensures var w := RunWrapped(lang, Chain(IF_A, NIL_ERR, ELSE_IF_B, DATA_NIL, "}", NIL_OTHER), s, fuel);
            && (lang.test(IF_A, s) == Tested(true, s1) && lang.err(s1) != lang.nilErr ==>
                  w == Ends(lang.nilData, lang.err(s1), false, s1))
            && (lang.test(IF_A, s) == Tested(false, s1) && lang.test(ELSE_IF_B, s1) == Tested(true, s2) ==>
                  w == Ends(lang.data(s2), lang.nilErr, true, s2))
  {
    ThreeReturns();
    CodeWord(IF_A);
    CodeWord(ELSE_IF_B);
    CodeWord("}");
    hide *;
    ElseIfPreserved(IF_A, NIL_ERR, ELSE_IF_B, DATA_NIL, "}", NIL_OTHER, "return " + "err", "return " + "nil", "return " + "other",
                    calls, receiver, wrapped, tcs, ctx, tx, lang, s, fuel);
    ElseIfEnds(lang, s, s1, s2, fuel);
  }

  lemma ElseIfEnds<S(!new), V, E>(lang: Language<S, V, E>, s: S, s1: S, s2: S, fuel: nat)
    requires Named(lang) && Preserved(lang, Chain(IF_A, NIL_ERR, ELSE_IF_B, DATA_NIL, "}", NIL_OTHER), s, fuel)
    ensures var w := RunWrapped(lang, Chain(IF_A, NIL_ERR, ELSE_IF_B, DATA_NIL, "}", NIL_OTHER), s, fuel);
            && (lang.test(IF_A, s) == Tested(true, s1) && lang.err(s1) != lang.nilErr ==>
                  w == Ends(lang.nilData, lang.err(s1), false, s1))
            && (lang.test(IF_A, s) == Tested(false, s1) && lang.test(ELSE_IF_B, s1) == Tested(true, s2) ==>
                  w == Ends(lang.data(s2), lang.nilErr, true, s2))
  {
    ReturnsRead();
    ReturnsRun(lang, s1);
    ReturnsRun(lang, s2);
    hide Trim, IsReturnLine, ReturnValues, RewriteClosureReturn, Exec, ExecReturn, RunWrapped, Chain, Named;
    ChainRuns(lang, IF_A, NIL_ERR, ELSE_IF_B, DATA_NIL, "}", NIL_OTHER, s, s1, s2, fuel);
  }

  lemma ReturnsRun<S(!new), V, E>(lang: Language<S, V, E>, s: S)
    requires Named(lang)
    ensures IsReturnLine(Trim(NIL_ERR)) && ExecReturn(lang, false, NIL_ERR, s) == Returned(lang.nilData, lang.err(s), s)
    ensures IsReturnLine(Trim(DATA_NIL)) && ExecReturn(lang, false, DATA_NIL, s) == Returned(lang.data(s), lang.nilErr, s)
  {
    ReturnsRead();
    hide Trim, IsReturnLine, ReturnValues;
  }

  // ---------------------------------------------------------------- a switch of three cases

  function ReturnArmOf(h: string, r: string): Arm {
    Arm([h], [Return(r)])
  }

  function SwitchOf(header: string, h1: string, r1: string, h2: string, r2: string, h3: string, r3: string,
                    close: string): seq<Stmt>
  {
    [Switch([header], [ReturnArmOf(h1, r1), ReturnArmOf(h2, r2), ReturnArmOf(h3, r3)], close)]
  }

  lemma ThreeArms(h1: string, r1: string, h2: string, r2: string, h3: string, r3: string)
    ensures var arms := [ReturnArmOf(h1, r1), ReturnArmOf(h2, r2), ReturnArmOf(h3, r3)];
            && PrintArms(arms) == [h1, r1, h2, r2, h3, r3]
            && RewriteArms(arms) == [ReturnArmOf(h1, RewriteClosureReturn(r1)), ReturnArmOf(h2, RewriteClosureReturn(r2)),
                                     ReturnArmOf(h3, RewriteClosureReturn(r3))]
            && (LaidArms(arms) <==> NoReturns([h1]) && NoReturns([h2]) && NoReturns([h3]) &&
                                    IsReturnLine(Trim(r1)) && IsReturnLine(Trim(r2)) && IsReturnLine(Trim(r3)))
  {
    hide Trim, IsReturnLine, RewriteClosureReturn, PrintArms, RewriteArms, LaidArms, NoReturns;
    var a1, a2, a3 := ReturnArmOf(h1, r1), ReturnArmOf(h2, r2), ReturnArmOf(h3, r3);
    NoArms();
    ReturnArm(h3, r3, []);
    ReturnArm(h2, r2, [a3]);
    ReturnArm(h1, r1, [a2, a3]);
    assert [a3] + [] == [a3] && [a2] + [a3] == [a2, a3] && [a1] + [a2, a3] == [a1, a2, a3];
  }

  lemma SwitchAlone(header: string, cases: seq<Arm>, close: string)
    ensures var list := [Switch([header], cases, close)];
            && Print(list) == [header] + PrintArms(cases) + [close]
            && Rewrite(list) == [Switch([header], RewriteArms(cases), close)]
            && (Laid(list) <==> NoReturns([header]) && LaidArms(cases) && Closing(close))
  {
    hide PrintArms, RewriteArms, LaidArms, NoReturns, Closing;
    var list := [Switch([header], cases, close)];
    assert list[1..] == [];
    assert Print(list) == PrintOne(list[0]) + Print([]);
  }

  /** A closing line is no return, so the closure gets one behind it. */
  lemma ClosedByBrace(body: seq<Stmt>, lines: seq<string>, close: string)
    requires Print(Rewrite(body)) == lines + [close] && Closing(close)
    ensures Print(Closure(body)) == lines + [close] + ["return nil"]
  {
    hide Trim, IsReturnLine, Print, Rewrite;
    ClosingIsLast(lines, close);
    ReturnAdded(body, lines + [close]);
  }

  lemma SwitchCloses(header: string, h1: string, r1: string, h2: string, r2: string, h3: string, r3: string, close: string,
                     q1: string, q2: string, q3: string)
    requires HeadLine(header) && HeadLine(h1) && HeadLine(h2) && HeadLine(h3) && HeadLine(close) && Closing(close)
    requires ReturnLine(r1, q1) && ReturnLine(r2, q2) && ReturnLine(r3, q3)
    ensures var body := SwitchOf(header, h1, r1, h2, r2, h3, r3, close);
            && Laid(body) && Print(body) == [header, h1, r1, h2, r2, h3, r3, close]
            && Print(Closure(body)) == [header, h1, q1, h2, q2, h3, q3, close, "return nil"]
  {
    hide Trim, IsReturnLine, RewriteClosureReturn, Closure, NoReturns, Closing, Print, Laid, Rewrite, PrintArms, RewriteArms,
         LaidArms, ReturnArmOf, Parenless, OneLine;
    var cases := [ReturnArmOf(h1, r1), ReturnArmOf(h2, r2), ReturnArmOf(h3, r3)];
    var again := [ReturnArmOf(h1, q1), ReturnArmOf(h2, q2), ReturnArmOf(h3, q3)];
    ThreeArms(h1, r1, h2, r2, h3, r3);
    ThreeArms(h1, q1, h2, q2, h3, q3);
    SwitchAlone(header, cases, close);
    SwitchAlone(header, again, close);
    var lines := [header] + PrintArms(again);
    ClosedByBrace(SwitchOf(header, h1, r1, h2, r2, h3, r3, close), lines, close);
  }

  lemma EightPlain(a: string, b: string, c: string, d: string, e: string, f: string, g: string, h: string)
    requires Parenless(a) && OneLine(a) && Parenless(b) && OneLine(b) && Parenless(c) && OneLine(c)
    requires Parenless(d) && OneLine(d) && Parenless(e) && OneLine(e) && Parenless(f) && OneLine(f)
    requires Parenless(g) && OneLine(g) && Parenless(h) && OneLine(h)
    ensures PlainLines([a, b, c, d, e, f, g, h])
  {
    hide Parenless, OneLine;
  }

  /** A switch through the repair: every case is rewritten, the closure gets a return behind it, and it is preserved. */
  lemma SwitchPreserved<S(!new), V, E>(header: string, h1: string, r1: string, h2: string, r2: string, h3: string, r3: string,
                                       close: string, q1: string, q2: string, q3: string, lines: seq<string>,
                                       calls: seq<DBCall>, receiver: string, wrapped: string, tcs: seq<TxCall>, ctx: string,
                                       tx: string, lang: Language<S, V, E>, s: S, fuel: nat)
    requires HeadLine(header) && HeadLine(h1) && HeadLine(h2) && HeadLine(h3) && HeadLine(close) && Closing(close)
    requires ReturnLine(r1, q1) && ReturnLine(r2, q2) && ReturnLine(r3, q3)
    requires lines == [header, h1, r1, h2, r2, h3, r3, close]
    requires RepairOf(JoinLines(lines), calls, receiver, wrapped, tcs, ctx)
    requires (forall j :: 0 <= j < |tcs| ==> Wordy(tcs[j]) && tcs[j].tx == tx) && Named(lang)
    ensures wrapped == WrapperText(ctx, tcs[0].recv, [header, h1, q1, h2, q2, h3, q3, close, "return nil"])
    ensures Preserved(lang, SwitchOf(header, h1, r1, h2, r2, h3, r3, close), s, fuel)
  {
    SwitchCloses(header, h1, r1, h2, r2, h3, r3, close, q1, q2, q3);
    EightPlain(header, h1, r1, h2, r2, h3, r3, close);
    hide *;
    PlainBodyRepaired(SwitchOf(header, h1, r1, h2, r2, h3, r3, close), lines, calls, receiver, wrapped, tcs, ctx, tx,
                      lang, s, fuel);
  }

  /** The case that is chosen ends as in the original; where none is, control goes on behind the switch. */
  lemma SwitchRuns<S(!new), V, E>(lang: Language<S, V, E>, header: string, h1: string, r1: string, h2: string, r2: string,
                                  h3: string, r3: string, close: string, s: S, fuel: nat)
    requires IsReturnLine(Trim(r1)) && IsReturnLine(Trim(r2)) && IsReturnLine(Trim(r3))
    ensures var c := lang.choose(header, [h1, h2, h3], s);
            c.Chosen? ==>
              Exec(lang, false, SwitchOf(header, h1, r1, h2, r2, h3, r3, close), s, fuel) ==
              if c.arm < 3 then ExecReturn(lang, false, [r1, r2, r3][c.arm], c.s) else Fell(c.s)
  {
    var cases := [ReturnArmOf(h1, r1), ReturnArmOf(h2, r2), ReturnArmOf(h3, r3)];
    var stmt := Switch([header], cases, close);
    assert Headers(cases) == [h1, h2, h3];
    JoinOneLine(header);
    hide Trim, IsReturnLine, JoinLines, ReturnValues, Headers, ExecReturn, ExecCases, Exec;
    AloneRuns(lang, stmt, s, fuel);
    var c := lang.choose(header, [h1, h2, h3], s);
    if c.Chosen? && c.arm < 3 {
      CaseRuns(lang, cases, c.arm, [r1, r2, r3][c.arm], c.s, fuel);
    }
  }

  lemma AloneRuns<S, V, E>(lang: Language<S, V, E>, stmt: Stmt, s: S, fuel: nat)
    ensures Exec(lang, false, [stmt], s, fuel) == ExecOne(lang, false, stmt, s, fuel)
  {
    hide ExecOne;
    assert [stmt][1..] == [];
  }

  lemma CaseRuns<S(!new), V, E>(lang: Language<S, V, E>, cases: seq<Arm>, k: nat, r: string, s: S, fuel: nat)
    requires k < |cases| && cases[k].body == [Return(r)] && IsReturnLine(Trim(r))
    ensures Settle(ExecCases(lang, false, cases, k, s, fuel)) == ExecReturn(lang, false, r, s)
  {
    ReturnRuns(lang, r, s, fuel);
    ReturnOnly(lang, r, s);
    hide Trim, IsReturnLine, ExecReturn, Exec;
  }

  lemma JoinOneLine(h: string)
    ensures JoinLines([h]) == h
  {
  }

  lemma ReturnOnly<S, V, E>(lang: Language<S, V, E>, r: string, s: S)
    requires IsReturnLine(Trim(r))
    ensures var o := ExecReturn(lang, false, r, s); o.Returned? || o.Panicked? || o.Illegal?
  {
    hide Trim, IsReturnLine, ReturnValues;
  }

  // ---------------------------------------------------------------- a checked call and no return at the end

  /** A statement, a call checked where it is made, and another statement with a blank line behind it. */
  function Checked(first: string, h: string, r: string, close: string, last: string): seq<Stmt> {
    [Simple([first]), If([Arm([h], [Return(r)])], false, close), Simple([last, ""])]
  }

  lemma ThreeStatements(a: Stmt, b: Stmt, c: Stmt)
    ensures Print([a, b, c]) == PrintOne(a) + PrintOne(b) + PrintOne(c)
    ensures Rewrite([a, b, c]) == [RewriteOne(a), RewriteOne(b), RewriteOne(c)]
    ensures LaidOne(a) && LaidOne(b) && LaidOne(c) ==> Laid([a, b, c])
  {
    hide PrintOne, RewriteOne, LaidOne;
    var list := [a, b, c];
    assert list[1..] == [b, c] && [b, c][1..] == [c] && [c][1..] == [];
    assert Print([c]) == PrintOne(c) + Print([]) && Print([b, c]) == PrintOne(b) + Print([c]);
    assert Rewrite([c]) == [RewriteOne(c)] && Rewrite([b, c]) == [RewriteOne(b)] + Rewrite([c]);
    assert Laid([]) && (LaidOne(c) ==> Laid([c])) && (LaidOne(b) && Laid([c]) ==> Laid([b, c]));
  }

  lemma CheckedShape(first: string, h: string, r: string, close: string, last: string)
    ensures Print(Checked(first, h, r, close, last)) == [first, h, r, close, last, ""]
    ensures Rewrite(Checked(first, h, r, close, last)) == Checked(first, h, RewriteClosureReturn(r), close, last)
    ensures NoReturns([first]) && NoReturns([h]) && IsReturnLine(Trim(r)) && Closing(close) && NoReturns([last, ""]) ==>
              Laid(Checked(first, h, r, close, last))
  {
    hide Trim, IsReturnLine, RewriteClosureReturn, Print, Rewrite, Laid, PrintArms, RewriteArms, LaidArms, NoReturns, Closing;
    var arm := Arm([h], [Return(r)]);
    NoArms();
    ReturnArm(h, r, []);
    var again := Arm([h], [Return(RewriteClosureReturn(r))]);
    assert [arm] + [] == [arm] && [again] + [] == [again];
    ThreeStatements(Simple([first]), If([arm], false, close), Simple([last, ""]));
  }

  /** Nothing is returned at the end, so the closure gets a return there. */
  lemma CheckedCloses(first: string, h: string, r: string, q: string, close: string, last: string)
    requires NoReturns([first]) && NoReturns([h]) && ReturnLine(r, q) && Closing(close) && Closing(last)
    ensures Laid(Checked(first, h, r, close, last)) && Print(Checked(first, h, r, close, last)) == [first, h, r, close, last, ""]
    ensures Print(Closure(Checked(first, h, r, close, last))) == [first, h, q, close, last, "", "return nil"]
  {
    hide Trim, IsReturnLine, RewriteClosureReturn, Checked, NoReturns, Closing, Print, Laid, Rewrite, Parenless, OneLine, LastCode;
    var body := Checked(first, h, r, close, last);
    CheckedShape(first, h, r, close, last);
    CheckedShape(first, h, q, close, last);
    BlankNoReturn(last);
    BlankBehind([first, h, q, close], last);
    assert [first, h, q, close] + [last, ""] == [first, h, q, close, last, ""];
    ReturnAdded(body, [first, h, q, close, last, ""]);
  }

  lemma BlankNoReturn(last: string)
    requires Closing(last)
    ensures NoReturns([last, ""])
  {
    assert Trim("") == "";
    EmptyIsNoReturn();
    hide Trim, IsReturnLine;
  }

  lemma ReturnAdded(body: seq<Stmt>, lines: seq<string>)
    requires Print(Rewrite(body)) == lines && !IsReturnLine(LastCode(lines))
    ensures Print(Closure(body)) == lines + ["return nil"]
  {
    hide Trim, IsReturnLine, Print, Rewrite, LastCode;
    PrintConcat(Rewrite(body), [Return("return nil")]);
    OneReturn("return nil");
  }

  lemma BlankBehind(lines: seq<string>, last: string)
    requires Closing(last)
    ensures !IsReturnLine(LastCode(lines + [last, ""])) && !IsReturnLine(Trim(""))
  {
    assert lines + [last, ""] == (lines + [last]) + [""];
    assert ((lines + [last]) + [""])[..|lines| + 1] == lines + [last];
    assert Trim("") == "";
    ClosingIsLast(lines, last);
    hide Trim;
    assert LastCode((lines + [last]) + [""]) == LastCode(lines + [last]);
  }

  /** The check returns the call's error; otherwise control runs off the end. */
  lemma CheckedRuns<S(!new), V, E>(lang: Language<S, V, E>, first: string, h: string, r: string, close: string, last: string,
                                   s: S, s1: S, s2: S, s3: S, fuel: nat)
    requires IsReturnLine(Trim(r)) && lang.step(first, s) == Next(s1)
    ensures var o := Exec(lang, false, Checked(first, h, r, close, last), s, fuel);
            && (lang.test(h, s1) == Tested(true, s2) ==> o == ExecReturn(lang, false, r, s2))
            && (lang.test(h, s1) == Tested(false, s2) && lang.step(last + "\n" + "", s2) == Next(s3) ==> o == Fell(s3))
  {
    JoinOneLine(first);
    JoinTwoLines(last, "");
    ReturnRuns(lang, r, s2, fuel);
    CheckRuns(lang, h, r, close, s1, s2, fuel);
    hide Trim, IsReturnLine, JoinLines, ReturnValues, ExecReturn, Exec;
    var check := If([Arm([h], [Return(r)])], false, close);
    ThreeRun(lang, Simple([first]), check, Simple([last, ""]), s, fuel);
  }

  lemma ThreeRun<S, V, E>(lang: Language<S, V, E>, a: Stmt, b: Stmt, c: Stmt, s: S, fuel: nat)
    ensures Exec(lang, false, [a, b, c], s, fuel) ==
            var o := ExecOne(lang, false, a, s, fuel);
            if !o.Fell? then o
            else
              var o2 := ExecOne(lang, false, b, o.s, fuel);
              if o2.Fell? then ExecOne(lang, false, c, o2.s, fuel) else o2
  {
    hide ExecOne, Exec;
    FirstRuns(lang, a, [b, c], s, fuel);
    assert [a] + [b, c] == [a, b, c] && [b] + [c] == [b, c];
    var o := ExecOne(lang, false, a, s, fuel);
    if o.Fell? {
      FirstRuns(lang, b, [c], o.s, fuel);
      var o2 := ExecOne(lang, false, b, o.s, fuel);
      if o2.Fell? {
        AloneRuns(lang, c, o2.s, fuel);
      }
    }
  }

  lemma FirstRuns<S, V, E>(lang: Language<S, V, E>, a: Stmt, rest: seq<Stmt>, s: S, fuel: nat)
    ensures Exec(lang, false, [a] + rest, s, fuel) ==
            var o := ExecOne(lang, false, a, s, fuel); if o.Fell? then Exec(lang, false, rest, o.s, fuel) else o
  {
    hide ExecOne;
    assert ([a] + rest)[1..] == rest && ([a] + rest)[0] == a;
  }

  lemma CheckRuns<S(!new), V, E>(lang: Language<S, V, E>, h: string, r: string, close: string, s: S, s': S, fuel: nat)
    requires IsReturnLine(Trim(r))
    ensures var o := ExecOne(lang, false, If([Arm([h], [Return(r)])], false, close), s, fuel);
            && (lang.test(h, s) == Tested(true, s') ==> o == ExecReturn(lang, false, r, s'))
            && (lang.test(h, s) == Tested(false, s') ==> o == Fell(s'))
  {
    var arms := [Arm([h], [Return(r)])];
    JoinOneLine(h);
    assert Headers(arms) == [h] && [h][1..] == [];
    assert Ask(lang, [], false, s') == Chosen(0, s');
    ReturnRuns(lang, r, s', fuel);
    hide Trim, IsReturnLine, JoinLines, ReturnValues, ExecReturn, Exec, Headers;
  }

  lemma JoinTwoLines(a: string, b: string)
    ensures JoinLines([a, b]) == a + "\n" + b
  {
    assert [a, b][1..] == [b];
  }

  /** The threaded text, line by line. */
  lemma CheckedLines(first: string, pre: string, p: string, mid: string, tail: string, h: string, r: string, close: string,
                     last: string)
    requires h == pre + (p + (mid + tail))
    requires OneLine(first) && OneLine(h) && OneLine(r) && OneLine(close) && OneLine(last)
    ensures SplitLines((first + "\n" + pre) + (p + (mid + (tail + "\n" + (r + "\n" + (close + "\n" + (last + "\n" + "")))))))
            == [first, h, r, close, last, ""]
  {
    var rest := r + "\n" + (close + "\n" + (last + "\n" + ""));
    Reassociated(first, pre, p, mid, tail, h, rest);
    hide OneLine, SplitLines;
    SixLines(first, h, r, close, last, last + "\n" + "", close + "\n" + (last + "\n" + ""), rest, h + "\n" + rest,
             first + "\n" + (h + "\n" + rest));
  }

  /** The text is a line and what follows it. */
  predicate LineThen(t: string, line: string, rest: string) {
    t == line + "\n" + rest
  }

  lemma SixLines(a: string, b: string, c: string, d: string, e: string, t4: string, t3: string, t2: string, t1: string, t0: string)
    requires OneLine(a) && OneLine(b) && OneLine(c) && OneLine(d) && OneLine(e)
    requires LineThen(t4, e, "") && LineThen(t3, d, t4) && LineThen(t2, c, t3) && LineThen(t1, b, t2) && LineThen(t0, a, t1)
    ensures SplitLines(t0) == [a, b, c, d, e, ""]
  {
    assert SplitLines("") == [""];
    hide OneLine, SplitLines, LineThen;
    NextLine(t4, e, "", [""]);
    NextLine(t3, d, t4, [e] + [""]);
    NextLine(t2, c, t3, [d] + ([e] + [""]));
    NextLine(t1, b, t2, [c] + ([d] + ([e] + [""])));
    NextLine(t0, a, t1, [b] + ([c] + ([d] + ([e] + [""]))));
    SixSingles(a, b, c, d, e, "");
  }

  lemma SixSingles<T>(a: T, b: T, c: T, d: T, e: T, f: T)
    ensures [a] + ([b] + ([c] + ([d] + ([e] + [f])))) == [a, b, c, d, e, f]
  {
  }

  lemma NextLine(t: string, a: string, rest: string, lines: seq<string>)
    requires OneLine(a) && LineThen(t, a, rest) && SplitLines(rest) == lines
    ensures SplitLines(t) == [a] + lines
  {
    FirstLine(a, rest);
  }

  lemma Reassociated(first: string, pre: string, p: string, mid: string, tail: string, h: string, rest: string)
    requires h == pre + (p + (mid + tail))
    ensures (first + "\n" + pre) + (p + (mid + (tail + "\n" + rest))) == first + "\n" + (h + "\n" + rest)
  {
  }

  const FIRST := "a := 1"
  const CHECK := "if err := "
  const CHECK_TAIL := "a); err != nil {"
  const LAST := "data = rows"

  /** The check as it stands in the body, and once its call is threaded. */
  function CheckText(mid: string): string {
    (FIRST + "\n" + CHECK) + (Head(SITE) + (mid + (CHECK_TAIL + "\n" + (NIL_ERR + "\n" + ("}" + "\n" + (LAST + "\n" + ""))))))
  }

  function CheckHeader(): string {
    CHECK + (Head(SITE) + (" tx, " + CHECK_TAIL))
  }

  lemma CheckPieces()
    ensures IsSpace((FIRST + "\n" + CHECK)[|FIRST + "\n" + CHECK| - 1]) && Parenless(FIRST + "\n" + CHECK)
    ensures var r := CHECK_TAIL + "\n" + (NIL_ERR + "\n" + ("}" + "\n" + (LAST + "\n" + "")));
            r != "" && !IsSpace(r[0]) && r[0] != 't' && Parenless(r)
  {
    ReturnsPlain();
    assert Parenless(FIRST) && Parenless(CHECK) && Parenless(CHECK_TAIL) && Parenless("}") && Parenless(LAST);
    assert CHECK[|CHECK| - 1] == ' ' && CHECK_TAIL[0] == 'a';
    hide Parenless;
    ParenlessJoined(FIRST, CHECK);
    ParenlessJoined(LAST, "");
    ParenlessJoined("}", LAST + "\n" + "");
    ParenlessJoined(NIL_ERR, "}" + "\n" + (LAST + "\n" + ""));
    ParenlessJoined(CHECK_TAIL, NIL_ERR + "\n" + ("}" + "\n" + (LAST + "\n" + "")));
  }

  lemma ParenlessJoined(a: string, b: string)
    requires Parenless(a)
    ensures Parenless(b) ==> Parenless(a + "\n" + b)
    ensures b == "" ==> Parenless(a + "\n" + b)
  {
  }

  lemma CheckLinesPlain()
    ensures OneLine(FIRST) && OneLine(CheckHeader()) && OneLine("}") && OneLine(LAST)
    ensures NoReturns([FIRST]) && NoReturns([CheckHeader()]) && Closing("}") && Closing(LAST)
  {
    SiteHead();
    assert OneLine(CHECK) && OneLine(SITE_HEAD) && OneLine(" tx, ") && OneLine(CHECK_TAIL);
    assert OneLine(SITE_HEAD + (" tx, " + CHECK_TAIL));
    CodeLine(FIRST);
    assert CheckHeader()[0] == 'i';
    CodeLine(CheckHeader());
    CodeLine("}");
    CodeLine(LAST);
  }

  lemma CheckThreads()
    ensures SplitLines(ThreadAll(CheckText(" "), [SITE])) == [FIRST, CheckHeader(), NIL_ERR, "}", LAST, ""]
  {
    CheckPieces();
    CheckLinesPlain();
    ReturnsPlain();
    hide ThreadAll, SplitLines, IsSpace, NoReturns, Closing, OneLine, Head, Reaches;
    var rest := CHECK_TAIL + "\n" + (NIL_ERR + "\n" + ("}" + "\n" + (LAST + "\n" + "")));
    ThreadsSite(FIRST + "\n" + CHECK, Head(SITE), rest);
    CheckedLines(FIRST, CHECK, Head(SITE), " tx, ", CHECK_TAIL, CheckHeader(), NIL_ERR, "}", LAST);
  }

  lemma CheckRepaired()
    ensures var c, h := DBCall("s", "Ins", "c", "tx", ["a"]), CheckHeader();
            RepairOf(CheckText(" "), [c], "s.",
                     WrapperText("c", "s", [FIRST, h, "return " + "err", "}", LAST, "", "return nil"]), [SITE], "c")
  {
    CheckThreads();
    CheckLinesPlain();
    ThreeReturns();
    hide Trim, IsReturnLine, RewriteClosureReturn, HeadLine, Closing, NoReturns, WrapperText, Checked, CheckText, CheckHeader,
         ThreadAll, SplitLines, Print, Laid, OneLine, Parenless, Closure, RepairOf, ClosureLines;
    CheckedCloses(FIRST, CheckHeader(), NIL_ERR, "return " + "err", "}", LAST);
    ClosurePrinted(Checked(FIRST, CheckHeader(), NIL_ERR, "}", LAST));
    OneRepair(CheckText(" "), DBCall("s", "Ins", "c", "tx", ["a"]));
  }

  /** A body whose call is checked and that has no return at its end: the call gets the handle, the check's return
      becomes one of the error, a final return is added; a failed check rolls back with its error, and running off the
      end commits and delivers the data. */
  lemma CheckedExample<S(!new), V, E>(lang: Language<S, V, E>, s: S, s1: S, s2: S, s3: S, fuel: nat)
    requires Named(lang) && lang.step(FIRST, s) == Next(s1)
    ensures var c, h := DBCall("s", "Ins", "c", "tx", ["a"]), CheckHeader();
            RepairOf(CheckText(" "), [c], "s.",
                     WrapperText("c", "s", [FIRST, h, "return " + "err", "}", LAST, "", "return nil"]), [SITE], "c")
    ensures var w, h := RunWrapped(lang, Checked(FIRST, CheckHeader(), NIL_ERR, "}", LAST), s, fuel), CheckHeader();
            && (lang.test(h, s1) == Tested(true, s2) && lang.err(s2) != lang.nilErr ==>
                  w == Ends(lang.nilData, lang.err(s2), false, s2))
            && (lang.test(h, s1) == Tested(false, s2) && lang.step(LAST + "\n" + "", s2) == Next(s3) ==>
                  w == Ends(lang.data(s3), lang.nilErr, true, s3))
  {
    var stmts := Checked(FIRST, CheckHeader(), NIL_ERR, "}", LAST);
    CheckThreads();
    CheckLinesPlain();
    ThreeReturns();
    ReturnsRun(lang, s2);
    hide Trim, IsReturnLine, ReturnValues, RewriteClosureReturn, HeadLine, Closing, NoReturns, WrapperText, Exec, ExecReturn,
         RunWrapped, Checked, Named, RepairOf, CheckText, CheckHeader, ThreadAll, SplitLines, Print, Laid, OneLine, Parenless,
         Closure;
    CheckedCloses(FIRST, CheckHeader(), NIL_ERR, "return " + "err", "}", LAST);
    CheckRepaired();
    WrapPreserves(lang, stmts, s, fuel);
    CheckedRuns(lang, FIRST, CheckHeader(), NIL_ERR, "}", LAST, s, s1, s2, s3, fuel);
  }

  // ---------------------------------------------------------------- a return inside a one-line block

  const INLINE := "if err != nil { return nil, err }"

  /** A block on one line is no return line: its return keeps both values inside the closure, which has one result. */
  lemma InlineReturnStays()
    ensures ClosureLines([INLINE, DATA_NIL]) == [INLINE, "return " + "nil"]
  {
    ReturnsRead();
    NotAReturn(INLINE);
    StaysReturnLine();
    hide *;
    TwoClosed(INLINE, DATA_NIL, "return " + "nil");
  }

  lemma TwoClosed(a: string, r: string, q: string)
    requires RewriteClosureReturn(a) == a && RewriteClosureReturn(r) == q && Trim(q) == q && q != "" && IsReturnLine(q)
    ensures ClosureLines([a, r]) == [a, q]
  {
    hide RewriteClosureReturn, IsReturnLine, Trim, LastCode;
    var cls := RewriteLines([a, r]);
    assert cls == [a] + [q];
    ReturnIsLast([a], q);
  }

  lemma StaysReturnLine()
    ensures Trim("return " + "nil") == "return " + "nil" && IsReturnLine("return " + "nil")
  {
    RestOf("nil");
    TrimNone("return " + "nil");
  }

  lemma ReturnIsLast(lines: seq<string>, last: string)
    requires Trim(last) == last && last != ""
    ensures LastCode(lines + [last]) == last
  {
    hide Trim;
    assert (lines + [last])[..|lines|] == lines;
  }
}
