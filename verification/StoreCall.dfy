/** The resolved call that replaces a legacy SQL region, and its one-line text. */
module StoreCall {
  import opened Options
  import opened Text
  import opened CallArgs

  /** Receiver and handle are empty for bare calls and for calls outside transactions. */
  datatype DBCall = DBCall(receiver: string, name: string, ctxName: string, tx: string, args: seq<string>)

  function ArgTail(args: seq<string>): string {
    if args == [] then "" else ArgTail(args[..|args| - 1]) + ", " + args[|args| - 1]
  }

  function CallHead(c: DBCall): string {
    (if c.receiver != "" then c.receiver + "." else "") + c.name + "(" + c.ctxName +
    (if c.tx != "" then ", " + c.tx else "")
  }

  function CallText(c: DBCall): string {
    CallHead(c) + ArgTail(c.args) + ")"
  }

  method RenderCall(c: DBCall) returns (line: string)
    ensures line == CallText(c)
    ensures Readable(c) ==> ReadsAs(line, c)
  {
    line := "";
    if c.receiver != "" {
      line := c.receiver + ".";
    }
    line := line + c.name + "(" + c.ctxName;
    if c.tx != "" {
      line := line + (", " + c.tx);
    }
    assert line == CallHead(c);
    hide CallHead, ReadsAs, Readable;
    for i := 0 to |c.args|
      invariant line == CallHead(c) + ArgTail(c.args[..i])
    {
      assert c.args[..i + 1][..i] == c.args[..i];
      line := line + ", " + c.args[i];
    }
    assert c.args[..|c.args|] == c.args;
    line := line + ")";
    if Readable(c) {
      CallReadsBack(c);
    }
  }

  // ---------------------------------------------------------------- reading a call back

  /** The name as it is called, behind its receiver. */
  function Target(c: DBCall): string {
    (if c.receiver != "" then c.receiver + "." else "") + c.name
  }

  /** Everything passed: context, handle if any, arguments. */
  function Passed(c: DBCall): seq<string> {
    [c.ctxName] + (if c.tx != "" then [c.tx] else []) + c.args
  }

  /** The parts between the commas: all but the first follow a blank. */
  function Written(items: seq<string>): (parts: seq<string>)
    ensures |parts| == |items|
  {
    seq(|items|, k requires 0 <= k < |items| => if k == 0 then items[k] else " " + items[k])
  }

  /** An expression that can stand among others: its literals and brackets close, no bracket closes more than it
      opened, and no comma stands outside them. */
  predicate Argument(p: string) {
    Whole(p) && NoUnderflow(p)
  }

  predicate NoUnderflow(p: string) {
    forall j :: 0 <= j < |p| ==> !Underflows(p, j)
  }

  predicate Underflows(p: string, j: nat) {
    j < |p| && Closes(p[j]) && InCode(Run(START, p[..j])) && Run(START, p[..j]).depth == 0
  }

  predicate NoParen(s: string) {
    forall i :: 0 <= i < |s| ==> s[i] != '('
  }

  predicate Readable(c: DBCall) {
    NoParen(c.receiver) && NoParen(c.name) && forall k :: 0 <= k < |Passed(c)| ==> Argument(Passed(c)[k])
  }

  /** The first parenthesis of the line matches its last character; the called name stands before it, and what is
      passed between them. */
  predicate ReadsAs(line: string, c: DBCall) {
    var k := |Target(c)|;
    && k + 1 < |line| && line[..k] == Target(c) && line[k] == '(' && NoParen(Target(c))
    && FindClose(line, k, k) == Some(|line| - 1)
    && Split(line[k + 1..|line| - 1]) == Written(Passed(c))
  }

  lemma {:induction false} ArgTailConcat(a: seq<string>, b: seq<string>)
    ensures ArgTail(a + b) == ArgTail(a) + ArgTail(b)
  {
    if b == [] {
      assert a + b == a;
    } else {
      var n := |b| - 1;
      assert (a + b)[..|a| + n] == a + b[..n];
      ArgTailConcat(a, b[..n]);
    }
  }

  lemma {:induction false} JoinCommaSnoc(parts: seq<string>, p: string)
    requires parts != []
    ensures JoinComma(parts + [p]) == JoinComma(parts) + "," + p
  {
    assert (parts + [p])[1..] == parts[1..] + [p];
    if |parts| > 1 {
      JoinCommaSnoc(parts[1..], p);
      assert JoinComma(parts + [p]) == parts[0] + "," + (JoinComma(parts[1..]) + "," + p);
    }
  }

  lemma {:induction false} JoinWritten(first: string, items: seq<string>)
    ensures JoinComma(Written([first] + items)) == first + ArgTail(items)
  {
    if items == [] {
      assert Written([first] + items) == [first];
    } else {
      var n := |items| - 1;
      JoinWritten(first, items[..n]);
      WrittenNext([first] + items[..n], items[n]);
      assert [first] + items == [first] + items[..n] + [items[n]];
      hide Written, JoinComma;
      JoinCommaSnoc(Written([first] + items[..n]), " " + items[n]);
      CommaBlank(first, ArgTail(items[..n]), items[n]);
    }
  }

  lemma WrittenNext(items: seq<string>, item: string)
    requires items != []
    ensures Written(items + [item]) == Written(items) + [" " + item]
  {
  }

  lemma CommaBlank(first: string, tail: string, item: string)
    ensures (first + tail) + "," + (" " + item) == first + (tail + ", " + item)
  {
  }

  /** The line is the called name and the bracketed, comma-joined parts. */
  lemma CallIsBracketed(c: DBCall)
    ensures CallText(c) == Target(c) + ("(" + JoinComma(Written(Passed(c))) + ")")
  {
    var handle := if c.tx != "" then [c.tx] else [];
    assert Passed(c) == [c.ctxName] + (handle + c.args);
    JoinWritten(c.ctxName, handle + c.args);
    ArgTailConcat(handle, c.args);
    assert ArgTail(handle) == if c.tx != "" then ", " + c.tx else "" by {
      assert [c.tx][..0] == [];
    }
    hide JoinComma, Written, ArgTail, Passed;
    HeadPieces(c, ArgTail(handle));
    Regrouped(Target(c), c.ctxName, ArgTail(handle), ArgTail(c.args));
  }

  lemma HeadPieces(c: DBCall, handle: string)
    requires handle == if c.tx != "" then ", " + c.tx else ""
    ensures CallHead(c) == Target(c) + "(" + c.ctxName + handle
  {
  }

  lemma Regrouped(target: string, ctx: string, handle: string, tail: string)
    ensures target + "(" + ctx + handle + tail + ")" == target + ("(" + (ctx + (handle + tail)) + ")")
  {
  }

  lemma RunAfter(a: string, b: string, j: nat)
    requires Run(START, a) == START && j <= |b|
    ensures Run(START, (a + b)[..|a| + j]) == Run(START, b[..j])
  {
    assert (a + b)[..|a| + j] == a + b[..j];
    RunConcat(START, a, b[..j]);
  }

  /** Balanced text stays so when more is put behind it. */
  lemma NoUnderflowConcat(a: string, b: string)
    requires Run(START, a) == START && NoUnderflow(a) && Run(START, b) == START && NoUnderflow(b)
    ensures Run(START, a + b) == START && NoUnderflow(a + b)
  {
    RunConcat(START, a, b);
    forall j | 0 <= j < |a + b| ensures !Underflows(a + b, j) {
      if j < |a| {
        assert (a + b)[..j] == a[..j];
        assert !Underflows(a, j);
      } else {
        RunAfter(a, b, j - |a|);
        assert !Underflows(b, j - |a|);
      }
    }
  }

  lemma OneCharacter(ch: char)
    requires ch == ' ' || ch == ','
    ensures Run(START, [ch]) == START && NoUnderflow([ch])
  {
    assert [ch][..0] == "";
  }

  lemma SpacedArgument(p: string)
    requires Argument(p)
    ensures Argument(" " + p)
  {
    OneCharacter(' ');
    NoUnderflowConcat(" ", p);
    forall j | 0 <= j < |" " + p| ensures !TopComma(" " + p, j) {
      if j > 0 {
        RunAfter(" ", p, j - 1);
        assert !TopComma(p, j - 1);
      }
    }
  }

  lemma WrittenArguments(items: seq<string>)
    requires forall k :: 0 <= k < |items| ==> Argument(items[k])
    ensures forall k :: 0 <= k < |items| ==> Argument(Written(items)[k])
  {
    hide Argument;
    forall k | 0 <= k < |items| ensures Argument(Written(items)[k]) {
      SpacedArgument(items[k]);
    }
  }

  lemma {:induction false} JoinedBalanced(parts: seq<string>)
    requires parts != [] && forall k :: 0 <= k < |parts| ==> Argument(parts[k])
    ensures Run(START, JoinComma(parts)) == START && NoUnderflow(JoinComma(parts))
  {
    assert Argument(parts[0]);
    if |parts| > 1 {
      var rest := JoinComma(parts[1..]);
      JoinedBalanced(parts[1..]);
      OneCharacter(',');
      hide NoUnderflow;
      NoUnderflowConcat(parts[0], ",");
      NoUnderflowConcat(parts[0] + ",", rest);
    }
  }

  lemma {:induction false} RunDeeper(l: Lex, s: string)
    ensures Run(l.(depth := l.depth + 1), s) == Run(l, s).(depth := Run(l, s).depth + 1)
  {
    if s != "" {
      RunDeeper(l, s[..|s| - 1]);
    }
  }

  lemma InsideBracket(s: string, j: nat)
    requires j <= |s|
    ensures Run(START, "(" + s[..j]) == Run(START, s[..j]).(depth := Run(START, s[..j]).depth + 1)
  {
    RunConcat(START, "(", s[..j]);
    assert "("[..0] == "";
    RunDeeper(START, s[..j]);
  }

  /** The bracket put before balanced text is matched by the one put behind it. */
  lemma BracketMatches(s: string)
    requires Run(START, s) == START && NoUnderflow(s)
    ensures FindClose("(" + s + ")", 0, 0) == Some(|s| + 1)
  {
    var x := "(" + s + ")";
    hide ClosesAt, Underflows, FindClose;
    forall j | 0 <= j <= |s| + 1 ensures ClosesAt(x, 0, j) <==> j == |s| + 1 {
      ClosesInBracket(s, x, j);
    }
    FindCloseIs(x, 0, |s| + 1);
  }

  lemma ClosesInBracket(s: string, x: string, j: nat)
    requires x == "(" + s + ")" && j <= |s| + 1 && Run(START, s) == START
    ensures ClosesAt(x, 0, j) <==> j == |s| + 1 || (j > 0 && Underflows(s, j - 1))
  {
    if j == 0 {
      NotAtStart(x, 0);
    } else {
      BracketPrefix(s, x, j);
      InsideBracket(s, j - 1);
      hide Run;
    }
  }

  lemma BracketPrefix(s: string, x: string, j: nat)
    requires x == "(" + s + ")" && 0 < j <= |s| + 1
    ensures x[0..j] == "(" + s[..j - 1] && s[..|s|] == s && x[j] == if j == |s| + 1 then ')' else s[j - 1]
  {
  }

  /** Reading a rendered call back gives its name and everything it passes. */
  lemma CallReadsBack(c: DBCall)
    requires Readable(c)
    ensures ReadsAs(CallText(c), c)
  {
    CallIsBracketed(c);
    PassedReadsBack(Passed(c));
    TargetNoParen(c);
    hide FindClose, Split, JoinComma, Argument, Written, CallText, NoParen, Passed, Target;
    var content := JoinComma(Written(Passed(c)));
    BracketEmbedded(CallText(c), Target(c), "(" + content + ")", content);
  }

  lemma PassedReadsBack(items: seq<string>)
    requires items != [] && forall k :: 0 <= k < |items| ==> Argument(items[k])
    ensures var content := JoinComma(Written(items));
            Split(content) == Written(items) && FindClose("(" + content + ")", 0, 0) == Some(|content| + 1)
  {
    hide FindClose, Split, JoinComma, Written, NoUnderflow, Whole;
    WrittenArguments(items);
    JoinedBalanced(Written(items));
    BracketMatches(JoinComma(Written(items)));
    assert Whole(Written(items)[|items| - 1]);
    WholeIsAtom(Written(items)[|items| - 1]);
    SplitJoin(Written(items));
  }

  lemma WholeIsAtom(p: string)
    requires Whole(p)
    ensures Atom(p)
  {
  }

  lemma TargetNoParen(c: DBCall)
    requires NoParen(c.receiver) && NoParen(c.name)
    ensures NoParen(Target(c))
  {
  }

  lemma BracketEmbedded(line: string, target: string, x: string, content: string)
    requires line == target + x && x == "(" + content + ")" && FindClose(x, 0, 0) == Some(|content| + 1)
    ensures var k := |target|;
            && k + 1 < |line| && line[..k] == target && line[k] == '('
            && FindClose(line, k, k) == Some(|line| - 1) && line[k + 1..|line| - 1] == content
  {
    hide FindClose;
    var k := |target|;
    assert x[0..0 + |x|] == x && line[k..k + |x|] == x;
    FindCloseLocal(x, 0, line, k, |x|);
    SliceOfSlice(line, k, |x|, 1, |x| - 1);
    assert x[1..|x| - 1] == content;
  }

  lemma FirstParen(line: string, k: nat, m: nat)
    requires k < |line| && m < |line| && line[k] == '(' && line[m] == '(' && NoParen(line[..k]) && NoParen(line[..m])
    ensures k == m
  {
    ParenNotBefore(line, k, m);
    ParenNotBefore(line, m, k);
  }

  lemma ParenNotBefore(line: string, k: nat, m: nat)
    requires k < |line| && line[k] == '(' && m <= |line| && NoParen(line[..m])
    ensures m <= k
  {
    assert forall i :: 0 <= i < m ==> line[..m][i] == line[i];
  }

  lemma WrittenInjective(a: seq<string>, b: seq<string>)
    requires Written(a) == Written(b)
    ensures a == b
  {
    forall k | 0 <= k < |a| ensures a[k] == b[k] {
      assert Written(a)[k] == Written(b)[k];
      if k > 0 {
        assert (" " + a[k])[1..] == a[k] && (" " + b[k])[1..] == b[k];
      }
    }
  }

  /** Two calls are written alike exactly when they call the same name and pass the same things. */
  lemma CallTextInjective(a: DBCall, b: DBCall)
    requires Readable(a) && Readable(b)
    ensures CallText(a) == CallText(b) <==> Target(a) == Target(b) && Passed(a) == Passed(b)
  {
    CallIsBracketed(a);
    CallIsBracketed(b);
    CallReadsBack(a);
    CallReadsBack(b);
    hide CallText, Target, Passed, Written, Readable, NoParen, FindClose, Split, JoinComma;
    if CallText(a) == CallText(b) {
      FirstParen(CallText(a), |Target(a)|, |Target(b)|);
      WrittenInjective(Passed(a), Passed(b));
    }
  }
}
