/** Top-level splitting of call arguments and bracket matching on one line of text. */
module CallArgs {
  import opened Options
  import Text

  /** Lexer state shared by the splitters: bracket depth, and whether a literal is open. */
  datatype Lex = Lex(depth: int, inStr: bool, inChar: bool, esc: bool)

  const START := Lex(0, false, false, false)

  predicate Opens(ch: char) {
    ch == '(' || ch == '[' || ch == '{'
  }

  predicate Closes(ch: char) {
    ch == ')' || ch == ']' || ch == '}'
  }

  function Next(l: Lex, ch: char): Lex {
    if l.esc then l.(esc := false)
    else if l.inStr then
      if ch == '\\' then l.(esc := true) else if ch == '"' then l.(inStr := false) else l
    else if l.inChar then
      if ch == '\\' then l.(esc := true) else if ch == '\'' then l.(inChar := false) else l
    else if ch == '"' then l.(inStr := true)
    else if ch == '\'' then l.(inChar := true)
    else if Opens(ch) then l.(depth := l.depth + 1)
    else if Closes(ch) then l.(depth := l.depth - 1)
    else l
  }

  /** State after reading all of `s`. */
  function Run(l: Lex, s: string): Lex {
    if s == "" then l else Next(Run(l, s[..|s| - 1]), s[|s| - 1])
  }

  lemma {:induction false} RunConcat(l: Lex, a: string, b: string)
    ensures Run(l, a + b) == Run(Run(l, a), b)
  {
    if b == "" {
      assert a + b == a;
    } else {
      var n := |b| - 1;
      assert (a + b)[..|a| + n] == a + b[..n];
      RunConcat(l, a, b[..n]);
    }
  }

  predicate InCode(l: Lex) {
    !l.esc && !l.inStr && !l.inChar
  }

  /** A comma outside every literal and bracket. */
  predicate TopComma(s: string, i: nat) {
    i < |s| && s[i] == ',' && Run(START, s[..i]) == START
  }

  // ---------------------------------------------------------------- splitting

  /** Position of the first top-level comma at or after `from`, or the length. */
  function FirstComma(s: string, from: nat): (i: nat)
    requires from <= |s|
    ensures from <= i <= |s|
    ensures i < |s| ==> TopComma(s, i)
    ensures forall j :: from <= j < i ==> !TopComma(s, j)
    decreases |s| - from
  {
    if from == |s| then from else if TopComma(s, from) then from else FirstComma(s, from + 1)
  }

  lemma FirstCommaIs(s: string, i: nat)
    requires TopComma(s, i) && forall j :: 0 <= j < i ==> !TopComma(s, j)
    ensures FirstComma(s, 0) == i
  {
  }

  function Split(s: string): (parts: seq<string>)
    ensures parts != []
    decreases |s|
  {
    var i := FirstComma(s, 0);
    if i == |s| then [s] else [s[..i]] + Split(s[i + 1..])
  }

  function JoinComma(parts: seq<string>): string {
    if parts == [] then ""
    else if |parts| == 1 then parts[0]
    else parts[0] + "," + JoinComma(parts[1..])
  }

  /** What follows a top-level comma is lexed as if it stood alone. */
  lemma AfterComma(s: string, i: nat, k: nat)
    requires TopComma(s, i) && i + 1 + k <= |s|
    ensures Run(START, s[..i + 1 + k]) == Run(START, s[i + 1..][..k])
  {
    assert s[..i + 1][..i] == s[..i];
    assert Run(START, s[..i + 1]) == START;
    assert s[..i + 1 + k] == s[..i + 1] + s[i + 1..][..k];
    RunConcat(START, s[..i + 1], s[i + 1..][..k]);
  }

  lemma AfterCommaTop(s: string, i: nat, k: nat)
    requires TopComma(s, i) && i + 1 + k <= |s|
    ensures TopComma(s, i + 1 + k) <==> TopComma(s[i + 1..], k)
  {
    AfterComma(s, i, k);
  }

  /** Joining the parts gives the text back, whatever the text is. */
  lemma {:induction false} JoinSplit(s: string)
    ensures JoinComma(Split(s)) == s
    decreases |s|
  {
    var i := FirstComma(s, 0);
    if i < |s| {
      JoinSplit(s[i + 1..]);
      assert Split(s)[1..] == Split(s[i + 1..]);
      assert s == s[..i] + "," + s[i + 1..];
    }
  }

  lemma NoCommaWhole(s: string)
    requires forall j :: 0 <= j < |s| ==> !TopComma(s, j)
    ensures Split(s) == [s]
  {
  }

  /** A part never splits further. */
  lemma {:induction false} PartsAreAtoms(s: string, k: nat)
    requires k < |Split(s)|
    ensures Split(Split(s)[k]) == [Split(s)[k]]
    decreases |s|
  {
    var i := FirstComma(s, 0);
    if k == 0 {
      var p := Split(s)[0];
      assert p == s[..i];
      forall j | 0 <= j < |p| ensures !TopComma(p, j) {
        assert p[..j] == s[..j];
        assert !TopComma(s, j);
      }
      NoCommaWhole(p);
    } else {
      PartsAreAtoms(s[i + 1..], k - 1);
    }
  }

  /** Text that can stand between two separating commas: literals and brackets closed, no top-level comma. */
  predicate Whole(p: string) {
    Run(START, p) == START && Atom(p)
  }

  predicate Atom(p: string) {
    forall j :: 0 <= j < |p| ==> !TopComma(p, j)
  }

  /** Splitting undoes joining. */
  lemma {:induction false} SplitJoin(parts: seq<string>)
    requires parts != [] && Atom(parts[|parts| - 1])
    requires forall k :: 0 <= k < |parts| - 1 ==> Whole(parts[k])
    ensures Split(JoinComma(parts)) == parts
  {
    if |parts| > 1 {
      var p, rest := parts[0], JoinComma(parts[1..]);
      var s := p + "," + rest;
      assert Whole(p);
      forall j | 0 <= j < |p| ensures !TopComma(s, j) {
        assert s[..j] == p[..j];
        assert !TopComma(p, j);
      }
      assert s[..|p|] == p && TopComma(s, |p|);
      assert FirstComma(s, 0) == |p|;
      assert s[|p| + 1..] == rest;
      SplitJoin(parts[1..]);
    }
  }

  lemma RunOne(s: string, i: nat)
    requires i < |s|
    ensures Run(START, s[..i + 1]) == Next(Run(START, s[..i]), s[i])
    ensures TopComma(s, i) <==> InCode(Run(START, s[..i])) && Run(START, s[..i]).depth == 0 && s[i] == ','
  {
    assert s[..i + 1][..i] == s[..i];
  }

  method SplitTopArgs(s: string) returns (parts: seq<string>)
    ensures parts == Split(s)
  {
    hide TopComma, Split;
    parts := [];
    var l, last := START, 0;
    assert s[0..] == s;
    for i := 0 to |s|
      invariant last <= i && l == Run(START, s[..i])
      invariant forall j :: last <= j < i ==> !TopComma(s, j)
      invariant last == 0 || TopComma(s, last - 1)
      invariant parts + Split(s[last..]) == Split(s)
    {
      RunOne(s, i);
      if InCode(l) && l.depth == 0 && s[i] == ',' {
        SplitAt(s, last, i);
        parts := parts + [s[last..i]];
        last := i + 1;
      }
      l := Next(l, s[i]);
    }
    NoneLeft(s, last);
    parts := parts + [s[last..]];
  }

  /** The tail from a separating comma on splits at the next one. */
  lemma SplitAt(s: string, last: nat, i: nat)
    requires last <= i < |s| && TopComma(s, i) && (last == 0 || TopComma(s, last - 1))
    requires forall j :: last <= j < i ==> !TopComma(s, j)
    ensures Split(s[last..]) == [s[last..i]] + Split(s[i + 1..])
  {
    hide TopComma;
    var t := s[last..];
    forall k | 0 <= k <= i - last ensures TopComma(t, k) <==> TopComma(s, last + k) {
      if last > 0 {
        AfterCommaTop(s, last - 1, k);
      } else {
        assert t == s;
      }
    }
    FirstCommaIs(t, i - last);
    assert t[..i - last] == s[last..i] && t[i - last + 1..] == s[i + 1..];
  }

  lemma NoneLeft(s: string, last: nat)
    requires last <= |s| && (last == 0 || TopComma(s, last - 1))
    requires forall j :: last <= j < |s| ==> !TopComma(s, j)
    ensures Split(s[last..]) == [s[last..]]
  {
    var t := s[last..];
    forall k | 0 <= k < |t| ensures !TopComma(t, k) {
      if last > 0 {
        AfterCommaTop(s, last - 1, k);
      } else {
        assert t == s;
      }
    }
    NoCommaWhole(t);
  }

  /** The split point of a return's value list, searched by its own scan. */
  method DepthZeroComma(s: string) returns (at: int)
    ensures at == -1 <==> |Split(s)| == 1
    ensures at != -1 ==> at == |Split(s)[0]| && Split(s)[0] == s[..at] && s[at] == ',' && at < |s|
  {
    var l := START;
    for i := 0 to |s|
      invariant l == Run(START, s[..i])
      invariant forall j :: 0 <= j < i ==> !TopComma(s, j)
    {
      RunOne(s, i);
      if InCode(l) && l.depth == 0 && s[i] == ',' {
        SplitAt(s, 0, i);
        assert s[0..] == s && s[0..i] == s[..i];
        return i;
      }
      l := Next(l, s[i]);
    }
    NoCommaWhole(s);
    return -1;
  }

  // ---------------------------------------------------------------- bracket matching

  /** The bracket at `i` brings the depth, counted from `start`, back to zero. */
  predicate ClosesAt(s: string, start: nat, i: nat) {
    start <= i < |s| && Closes(s[i]) && InCode(Run(START, s[start..i])) && Run(START, s[start..i]).depth == 1
  }

  /** Position of the bracket matching the one at `start`, if there is one. */
  function FindClose(s: string, start: nat, from: nat): (r: Option<nat>)
    ensures r.Some? ==> from <= r.value < |s|
    decreases |s| - from
  {
    if from >= |s| then None else if ClosesAt(s, start, from) then Some(from) else FindClose(s, start, from + 1)
  }

  lemma ClosesAtLocal(s: string, start: nat, t: string, pos: nat, n: nat, k: nat)
    requires start + n <= |s| && pos + n <= |t| && t[pos..pos + n] == s[start..start + n] && k < n
    ensures ClosesAt(t, pos, pos + k) <==> ClosesAt(s, start, start + k)
  {
    Text.SliceOfSlice(s, start, n, 0, k);
    Text.SliceOfSlice(t, pos, n, 0, k);
    assert s[start..start + n][k] == t[pos..pos + n][k];
  }

  /** Matching looks at nothing before the opening bracket and nothing after the closing one. */
  lemma FindCloseLocal(s: string, start: nat, t: string, pos: nat, n: nat)
    requires start + n <= |s| && pos + n <= |t| && t[pos..pos + n] == s[start..start + n] && n > 0
    requires FindClose(s, start, start) == Some(start + n - 1)
    ensures FindClose(t, pos, pos) == Some(pos + n - 1)
  {
    FindCloseFirst(s, start, start);
    ClosesAtLocal(s, start, t, pos, n, n - 1);
    forall j | pos <= j < pos + n - 1 ensures !ClosesAt(t, pos, j) {
      ClosesAtLocal(s, start, t, pos, n, j - pos);
      assert !ClosesAt(s, start, start + (j - pos));
    }
    FindCloseIs(t, pos, pos + n - 1);
  }

  lemma FindCloseIs(s: string, start: nat, i: nat)
    requires ClosesAt(s, start, i)
    requires forall j :: start <= j < i ==> !ClosesAt(s, start, j)
    ensures FindClose(s, start, start) == Some(i)
  {
    FindCloseFirst(s, start, start);
  }

  /** The position found is a matching bracket, and none comes before it. */
  lemma {:induction false} FindCloseFirst(s: string, start: nat, from: nat)
    ensures match FindClose(s, start, from)
            case None => forall j :: from <= j ==> !ClosesAt(s, start, j)
            case Some(i) => ClosesAt(s, start, i) && forall j :: from <= j < i ==> !ClosesAt(s, start, j)
    decreases |s| - from
  {
    if from < |s| && !ClosesAt(s, start, from) {
      FindCloseFirst(s, start, from + 1);
    }
  }

  lemma NotAtStart(s: string, start: nat)
    ensures !ClosesAt(s, start, start)
    ensures FindClose(s, start, start).Some? ==> start < FindClose(s, start, start).value
  {
    if start < |s| {
      assert s[start..start] == "";
    }
  }

  lemma RunFrom(s: string, start: nat, i: nat)
    requires start <= i < |s|
    ensures Run(START, s[start..i + 1]) == Next(Run(START, s[start..i]), s[i])
  {
    assert s[start..i + 1][..i - start] == s[start..i];
  }

  method BalancedParens(s: string, start: nat) returns (content: string, close: nat, ok: bool)
    ensures ok <==> FindClose(s, start, start).Some?
    ensures ok ==> start < close < |s| && FindClose(s, start, start) == Some(close) && content == s[start + 1..close]
  {
    var l := START;
    content, close, ok := "", 0, false;
    if start >= |s| {
      return;
    }
    assert s[start..start] == "";
    for i := start to |s|
      invariant l == Run(START, s[start..i])
      invariant FindClose(s, start, start) == FindClose(s, start, i)
    {
      RunFrom(s, start, i);
      NotAtStart(s, start);
      var l' := Next(l, s[i]);
      if InCode(l) && Closes(s[i]) && l'.depth == 0 {
        assert ClosesAt(s, start, i);
        return s[start + 1..i], i, true;
      }
      l := l';
    }
  }

  /** The arguments of a call whose opening bracket is at `open`. */
  method ArgsOf(line: string, open: nat) returns (args: seq<string>, close: nat, ok: bool)
    ensures ok <==> FindClose(line, open, open).Some?
    ensures ok ==> open < close < |line| && FindClose(line, open, open) == Some(close)
    ensures ok ==> JoinComma(args) == line[open + 1..close]
    ensures ok ==> forall k :: 0 <= k < |args| ==> Split(args[k]) == [args[k]]
  {
    args := [];
    var content;
    content, close, ok := BalancedParens(line, open);
    if ok {
      args := SplitTopArgs(content);
      JoinSplit(content);
      forall k | 0 <= k < |args| ensures Split(args[k]) == [args[k]] {
        PartsAreAtoms(content, k);
      }
    }
  }
}
