/** The parser of `if (...) {...} else if (...) {...} else {...}` chains in legacy text. */
module IfChain {
  import opened Options
  import opened CallArgs
  import opened Text

  // ---------------------------------------------------------------- the lexer of brace blocks

  /** Where the text stands: code (just after a slash or not), comment (just after a star or not), literal. */
  datatype Mode = Code(slash: bool) | Comment(star: bool) | Str(esc: bool) | Chr(esc: bool)

  datatype Block = Block(depth: int, mode: Mode)

  const OUTSIDE := Block(0, Code(false))

  /** One character of text; block comments count, line comments do not. */
  function Feed(b: Block, ch: char): Block {
    match b.mode
    case Comment(star) =>
      b.(mode := if star && ch == '/' then Code(false) else Comment(ch == '*'))
    case Str(esc) =>
      b.(mode := if esc then Str(false) else if ch == '\\' then Str(true) else if ch == '"' then Code(false) else Str(false))
    case Chr(esc) =>
      b.(mode := if esc then Chr(false) else if ch == '\\' then Chr(true) else if ch == '\'' then Code(false) else Chr(false))
    case Code(slash) =>
      if slash && ch == '*' then b.(mode := Comment(false))
      else if ch == '"' then b.(mode := Str(false))
      else if ch == '\'' then b.(mode := Chr(false))
      else if ch == '{' then Block(b.depth + 1, Code(false))
      else if ch == '}' then Block(b.depth - 1, Code(false))
      else b.(mode := Code(ch == '/'))
  }

  function FeedAll(t: string): Block {
    if t == "" then OUTSIDE else Feed(FeedAll(t[..|t| - 1]), t[|t| - 1])
  }

  /** The block opened by the brace at `i` ends just before `n`. */
  predicate EndsBlock(s: string, i: nat, n: nat) {
    i < n <= |s| && s[i] == '{' && FeedAll(s[i..n]).depth == 0 && forall m :: i < m < n ==> FeedAll(s[i..m]).depth > 0
  }

  /** A block is read from its own characters alone. */
  lemma EndsBlockLocal(s: string, i: nat, t: string, pos: nat, n: nat)
    requires i + n <= |s| && pos + n <= |t| && t[pos..pos + n] == s[i..i + n]
    requires EndsBlock(s, i, i + n)
    ensures EndsBlock(t, pos, pos + n)
  {
    hide FeedAll;
    SubSlice(s, i, t, pos, n, n);
    assert t[pos] == t[pos..pos + n][0] == s[i];
    forall m | pos < m < pos + n ensures FeedAll(t[pos..m]).depth > 0 {
      SubSlice(s, i, t, pos, n, m - pos);
      assert FeedAll(s[i..i + (m - pos)]).depth > 0;
    }
  }

  lemma SubSlice(s: string, i: nat, t: string, pos: nat, n: nat, m: nat)
    requires i + n <= |s| && pos + n <= |t| && t[pos..pos + n] == s[i..i + n] && m <= n
    ensures t[pos..pos + m] == s[i..i + m]
  {
    assert t[pos..pos + m] == t[pos..pos + n][..m];
    assert s[i..i + m] == s[i..i + n][..m];
  }

  lemma EndsBlockUnique(s: string, i: nat, m: nat, n: nat)
    requires EndsBlock(s, i, m) && EndsBlock(s, i, n)
    ensures m == n
  {
  }

  lemma FeedOne(s: string, i: nat, k: nat)
    requires i <= k < |s|
    ensures FeedAll(s[i..k + 1]) == Feed(FeedAll(s[i..k]), s[k])
  {
    assert s[i..k + 1][..k - i] == s[i..k];
  }

  /** The scanner's own variables. */
  datatype Scan = Scan(depth: int, inStr: bool, inChar: bool, esc: bool, inBlock: bool)

  /** The flags stand for the lexer's mode; a slash or star the scanner has passed is not followed by the
      character that would have completed a comment mark. */
  ghost predicate Agrees(b: Block, sc: Scan, s: string, j: nat) {
    && b.depth == sc.depth
    && match b.mode
       case Code(slash) => !sc.inStr && !sc.inChar && !sc.inBlock && !sc.esc && (slash && j < |s| ==> s[j] != '*')
       case Comment(star) => sc.inBlock && !sc.inStr && !sc.inChar && !sc.esc && (star && j < |s| ==> s[j] != '/')
       case Str(e) => sc.inStr && !sc.inChar && !sc.inBlock && sc.esc == e
       case Chr(e) => sc.inChar && !sc.inStr && !sc.inBlock && sc.esc == e
  }

  /** One turn of the scanning loop; a comment mark takes two characters at once. */
  method ScanOne(s: string, j: nat, sc0: Scan, ghost b: Block) returns (sc: Scan, j': nat)
    requires j < |s| && Agrees(b, sc0, s, j)
    ensures j < j' <= |s| && (j' == j + 1 || j' == j + 2)
    ensures j' == j + 1 ==> Agrees(Feed(b, s[j]), sc, s, j')
    ensures j' == j + 2 ==> Agrees(Feed(Feed(b, s[j]), s[j + 1]), sc, s, j') && Feed(b, s[j]).depth == sc.depth == b.depth
  {
    sc, j' := sc0, j;
    var ch := s[j];
    if sc.inBlock {
      if ch == '*' && j + 1 < |s| && s[j + 1] == '/' {
        sc, j' := sc.(inBlock := false), j' + 1;
      }
    } else if sc.inStr {
      if sc.esc {
        sc := sc.(esc := false);
      } else if ch == '\\' {
        sc := sc.(esc := true);
      } else if ch == '"' {
        sc := sc.(inStr := false);
      }
    } else if sc.inChar {
      if sc.esc {
        sc := sc.(esc := false);
      } else if ch == '\\' {
        sc := sc.(esc := true);
      } else if ch == '\'' {
        sc := sc.(inChar := false);
      }
    } else if ch == '/' && j + 1 < |s| && s[j + 1] == '*' {
      sc, j' := sc.(inBlock := true), j' + 1;
    } else if ch == '"' {
      sc := sc.(inStr := true);
    } else if ch == '\'' {
      sc := sc.(inChar := true);
    } else if ch == '{' {
      sc := sc.(depth := sc.depth + 1);
    } else if ch == '}' {
      sc := sc.(depth := sc.depth - 1);
    }
    j' := j' + 1;
  }

  /** Content between the brace at `i` and its match: the shortest balanced block starting there. */
  method StringBraceBody(s: string, i: nat) returns (body: string, next: nat, ok: bool)
    ensures ok <==> exists n :: EndsBlock(s, i, n)
    ensures ok ==> i + 1 < next <= |s| && EndsBlock(s, i, next) && body == s[i + 1..next - 1]
    ensures !ok ==> body == "" && next == i
  {
    body, next, ok := "", i, false;
    if i >= |s| || s[i] != '{' {
      return;
    }
    assert s[i..i] == "";
    var sc := Scan(0, false, false, false, false);
    var j := i;
    while j < |s|
      invariant i <= j <= |s|
      invariant Agrees(FeedAll(s[i..j]), sc, s, j)
      invariant forall m :: i < m <= j ==> FeedAll(s[i..m]).depth > 0
      decreases |s| - j
    {
      hide FeedAll;
      FeedOne(s, i, j);
      var sc', j' := ScanOne(s, j, sc, FeedAll(s[i..j]));
      if j' == j + 2 {
        FeedOne(s, i, j + 1);
      }
      if sc'.depth == 0 && sc.depth == 1 {
        assert EndsBlock(s, i, j');
        return s[i + 1..j], j + 1, true;
      }
      sc, j := sc', j';
    }
  }

  // ---------------------------------------------------------------- white space and comments

  predicate IsGap(ch: char) {
    ch == ' ' || ch == '\t' || ch == '\n' || ch == '\r'
  }

  /** Where the run of white space and comments starting at `i` ends. */
  function Skip(s: string, i: nat): (n: nat)
    requires i <= |s|
    ensures i <= n <= |s|
    decreases |s| - i
  {
    if i == |s| then i
    else if IsGap(s[i]) then Skip(s, i + 1)
    else if HasAt(s, i, "/*") then
      (match IndexFrom(s, i + 2, "*/") case None => |s| case Some(j) => Skip(s, j + 2))
    else if HasAt(s, i, "//") then
      (match IndexFrom(s, i, "\n") case None => |s| case Some(j) => Skip(s, j + 1))
    else i
  }

  /** One turn of the skipping loop. */
  lemma SkipUnfolds(s: string, i: nat)
    requires i < |s|
    ensures Skip(s, i) ==
            if IsGap(s[i]) then Skip(s, i + 1)
            else if HasAt(s, i, "/*") then
              (match IndexFrom(s, i + 2, "*/") case None => |s| case Some(j) => Skip(s, j + 2))
            else if HasAt(s, i, "//") then
              (match IndexFrom(s, i, "\n") case None => |s| case Some(j) => Skip(s, j + 1))
            else i
  {
    hide HasAt, IndexFrom;
  }

  method SkipSpaceComments(s: string, i: nat) returns (r: nat)
    requires i <= |s|
    ensures r == Skip(s, i)
  {
    hide HasAt, IndexFrom, Skip, IsGap;
    r := i;
    while r < |s|
      invariant i <= r <= |s| && Skip(s, i) == Skip(s, r)
      decreases |s| - r
    {
      SkipUnfolds(s, r);
      if IsGap(s[r]) {
        r := r + 1;
      } else if HasAt(s, r, "/*") {
        var j := IndexFrom(s, r + 2, "*/");
        if j.None? {
          return |s|;
        }
        r := j.value + 2;
      } else if HasAt(s, r, "//") {
        var j := IndexFrom(s, r, "\n");
        if j.None? {
          return |s|;
        }
        r := j.value + 1;
      } else {
        return r;
      }
    }
    SkipsNothing(s);
  }

  lemma SkipsNothing(s: string)
    ensures Skip(s, |s|) == |s|
  {
  }

  // ---------------------------------------------------------------- the grammar

  datatype Arm = Arm(cond: string, body: string)

  /** A parse either fails or gives a value and the position after it. */
  datatype Parsed<+T> = Fail | Done(value: T, next: nat)

  ghost function ParseBlock(s: string, i: nat): (r: Parsed<string>)
    ensures r.Done? ==> i + 1 < r.next <= |s|
  {
    if n: nat :| EndsBlock(s, i, n) then
      EndsBlockLong(s, i, n);
      Done(s[i + 1..n - 1], n)
    else Fail
  }

  lemma EndsBlockLong(s: string, i: nat, n: nat)
    requires EndsBlock(s, i, n)
    ensures n >= i + 2
  {
    FeedOne(s, i, i);
    assert s[i..i] == "";
  }

  ghost function ParseArm(s: string, i: nat): (r: Parsed<Arm>)
    requires i <= |s|
    ensures r.Done? ==> i < r.next <= |s|
  {
    var a := Skip(s, i);
    match FindClose(s, a, a)
    case None => Fail
    case Some(close) =>
      NotAtStart(s, a);
      match ParseBlock(s, Skip(s, close + 1))
      case Fail => Fail
      case Done(body, n) => Done(Arm(s[a + 1..close], body), n)
  }

  /** What follows an arm: further arms, a final else, or something else that is left alone. */
  ghost function ParseElse(s: string, i: nat): (r: Parsed<seq<Arm>>)
    requires i <= |s|
    ensures r.Done? ==> i <= r.next <= |s|
    decreases |s| - i
  {
    var a := Skip(s, i);
    if !HasAt(s, a, "else") then Done([], a)
    else
      var b := Skip(s, a + 4);
      if HasAt(s, b, "if") then
        match ParseArm(s, b + 2)
        case Fail => Fail
        case Done(arm, n) => Prepend([arm], ParseElse(s, n))
      else
        match ParseBlock(s, b)
        case Fail => Fail
        case Done(body, n) => Done([Arm("", body)], n)
  }

  ghost function Prepend(arms: seq<Arm>, r: Parsed<seq<Arm>>): Parsed<seq<Arm>> {
    match r case Fail => Fail case Done(rest, n) => Done(arms + rest, n)
  }

  ghost function ParseChain(s: string, i: nat): (r: Parsed<seq<Arm>>)
    requires i <= |s|
    ensures r.Done? ==> i <= r.next <= |s|
  {
    var a := Skip(s, i);
    if !HasAt(s, a, "if") then Fail
    else
      match ParseArm(s, a + 2)
      case Fail => Fail
      case Done(arm, n) => Prepend([arm], ParseElse(s, n))
  }

  lemma BlockIs(s: string, i: nat)
    ensures ParseBlock(s, i).Done? <==> exists n :: EndsBlock(s, i, n)
    ensures forall n: nat :: EndsBlock(s, i, n) ==> n >= i + 2 && ParseBlock(s, i) == Done(s[i + 1..n - 1], n)
  {
    hide FeedAll;
    forall n: nat | EndsBlock(s, i, n) ensures n >= i + 2 && ParseBlock(s, i) == Done(s[i + 1..n - 1], n) {
      EndsBlockLong(s, i, n);
      EndsBlockUnique(s, i, n, ParseBlock(s, i).next);
    }
  }

  method ParseIfArm(s: string, i: nat) returns (cond: string, body: string, next: nat, ok: bool)
    requires i <= |s|
    ensures ok <==> ParseArm(s, i).Done?
    ensures ok ==> i < next <= |s| && ParseArm(s, i) == Done(Arm(cond, body), next)
  {
    hide Skip, FindClose, EndsBlock, ParseBlock;
    cond, body, next, ok := "", "", i, false;
    NotAtStart(s, Skip(s, i));
    var a := SkipSpaceComments(s, i);
    var c, close, okc := BalancedParens(s, a);
    if !okc {
      return;
    }
    var b := SkipSpaceComments(s, close + 1);
    var bd, n, okb := StringBraceBody(s, b);
    BlockIs(s, b);
    if !okb {
      return;
    }
    cond, body, next, ok := c, bd, n, true;
  }

  /** How the chain goes on after an arm. */
  lemma ElseUnfolds(s: string, i: nat)
    requires i <= |s|
    ensures var a := Skip(s, i);
            if !HasAt(s, a, "else") then ParseElse(s, i) == Done([], a)
            else
              && a + 4 <= |s|
              && var b := Skip(s, a + 4);
                 if HasAt(s, b, "if") then
                   && b + 2 <= |s|
                   && ParseElse(s, i) == match ParseArm(s, b + 2)
                                         case Fail => Fail
                                         case Done(arm, n) => Prepend([arm], ParseElse(s, n))
                 else
                   ParseElse(s, i) == match ParseBlock(s, b)
                                      case Fail => Fail
                                      case Done(body, n) => Done([Arm("", body)], n)
  {
    hide Skip, ParseArm, ParseBlock, Prepend;
  }

  lemma ChainUnfolds(s: string, i: nat)
    requires i <= |s|
    ensures var a := Skip(s, i);
            if HasAt(s, a, "if") then
              && a + 2 <= |s|
              && ParseChain(s, i) == match ParseArm(s, a + 2)
                                     case Fail => Fail
                                     case Done(arm, n) => Prepend([arm], ParseElse(s, n))
            else ParseChain(s, i) == Fail
  {
    hide Skip, ParseArm, ParseElse, Prepend;
  }

  lemma PrependCases(arms: seq<Arm>, arm: Arm, n: nat)
    ensures Prepend(arms, Fail) == Fail && Prepend(arms, Done([], n)) == Done(arms, n)
    ensures Prepend(arms, Done([arm], n)) == Done(arms + [arm], n)
  {
    assert arms + [] == arms;
  }

  method ParseIfChain(s: string, start: nat) returns (branches: seq<Arm>, next: nat, ok: bool)
    requires start <= |s|
    ensures ok <==> ParseChain(s, start).Done?
    ensures ok ==> ParseChain(s, start) == Done(branches, next)
  {
    hide Skip, FindClose, EndsBlock, ParseBlock, ParseArm, ParseElse, ParseChain, Prepend, HasAt;
    branches, ok := [], false;
    next := SkipSpaceComments(s, start);
    ChainUnfolds(s, start);
    if !HasAt(s, next, "if") {
      return;
    }
    var cond, body, i, okArm := ParseIfArm(s, next + 2);
    if !okArm {
      return;
    }
    branches := [Arm(cond, body)];
    while true
      invariant i <= |s|
      invariant ParseChain(s, start) == Prepend(branches, ParseElse(s, i))
      decreases |s| - i
    {
      ElseUnfolds(s, i);
      var a := SkipSpaceComments(s, i);
      PrependCases(branches, Arm("", ""), a);
      if !HasAt(s, a, "else") {
        return branches, a, true;
      }
      var b := SkipSpaceComments(s, a + 4);
      if HasAt(s, b, "if") {
        var after;
        cond, body, after, okArm := ParseIfArm(s, b + 2);
        if !okArm {
          return [], b + 2, false;
        }
        PrependTwice(branches, [Arm(cond, body)], ParseElse(s, after));
        branches, i := branches + [Arm(cond, body)], after;
      } else {
        var bd, n, okb := StringBraceBody(s, b);
        BlockIs(s, b);
        if !okb {
          return [], b, false;
        }
        PrependCases(branches, Arm("", bd), n);
        return branches + [Arm("", bd)], n, true;
      }
    }
  }

  lemma PrependTwice(a: seq<Arm>, b: seq<Arm>, r: Parsed<seq<Arm>>)
    ensures Prepend(a, Prepend(b, r)) == Prepend(a + b, r)
  {
    if r.Done? {
      assert a + (b + r.value) == (a + b) + r.value;
    }
  }

  // ---------------------------------------------------------------- printing

  predicate AllGap(gap: string) {
    forall i :: 0 <= i < |gap| ==> IsGap(gap[i])
  }

  lemma {:induction false} SkipGap(s: string, i: nat, gap: string)
    requires AllGap(gap) && HasAt(s, i, gap)
    ensures Skip(s, i) == Skip(s, i + |gap|)
    decreases |gap|
  {
    if gap != "" {
      FirstOf(s, i, gap);
      assert s[i + 1..i + |gap|] == s[i..i + |gap|][1..];
      SkipGap(s, i + 1, gap[1..]);
    }
  }

  lemma FirstOf(s: string, i: nat, pat: string)
    requires pat != ""
    ensures HasAt(s, i, pat) ==> i < |s| && s[i] == pat[0]
  {
    if HasAt(s, i, pat) {
      assert s[i] == s[i..i + |pat|][0];
    }
  }

  lemma SkipNone(s: string, i: nat)
    requires i < |s| && !IsGap(s[i]) && s[i] != '/'
    ensures Skip(s, i) == i
  {
    FirstOf(s, i, "/*");
    FirstOf(s, i, "//");
  }

  /** A condition whose own brackets and literals close, so that its parenthesis ends with it. */
  predicate BalancedCond(cond: string) {
    FindClose("(" + cond + ")", 0, 0) == Some(|cond| + 1)
  }

  /** A body whose own braces, literals and comments close. */
  ghost predicate BalancedBody(body: string) {
    EndsBlock("{" + body + "}", 0, |body| + 2)
  }

  ghost predicate GoodArm(arm: Arm) {
    BalancedCond(arm.cond) && BalancedBody(arm.body)
  }

  function PrintBlock(gap: string, body: string): string {
    gap + ("{" + body + "}")
  }

  function PrintArm(gap: string, arm: Arm): string {
    "if" + (gap + (("(" + arm.cond + ")") + PrintBlock(gap, arm.body)))
  }

  function PrintElse(gap: string, arms: seq<Arm>, last: Option<string>): string {
    if arms == [] then
      match last case None => "" case Some(body) => gap + ("else" + PrintBlock(gap, body))
    else gap + ("else" + (gap + (PrintArm(gap, arms[0]) + PrintElse(gap, arms[1..], last))))
  }

  /** The chain in the source's layout, with one separator `gap` of white space everywhere. */
  function PrintChain(gap: string, arms: seq<Arm>, last: Option<string>): string
    requires arms != []
  {
    PrintArm(gap, arms[0]) + PrintElse(gap, arms[1..], last)
  }

  lemma HasBoth(s: string, i: nat, a: string, b: string)
    requires HasAt(s, i, a + b)
    ensures HasAt(s, i, a) && HasAt(s, i + |a|, b)
  {
    var x := s[i..i + |a| + |b|];
    assert s[i..i + |a|] == x[..|a|] == a;
    assert s[i + |a|..i + |a| + |b|] == x[|a|..] == b;
  }

  lemma ReadBlock(s: string, i: nat, gap: string, body: string)
    requires AllGap(gap) && BalancedBody(body) && HasAt(s, i, PrintBlock(gap, body))
    ensures i + |gap| < |s| && s[i + |gap|] == '{' && Skip(s, i) == i + |gap|
    ensures ParseBlock(s, Skip(s, i)) == Done(body, i + |PrintBlock(gap, body)|)
  {
    var x := "{" + body + "}";
    hide HasAt, Skip, ParseBlock, BalancedBody;
    HasBoth(s, i, gap, x);
    HasAtFits(s, i, gap);
    SkipGap(s, i, gap);
    FirstOf(s, i + |gap|, x);
    SkipNone(s, i + |gap|);
    BlockFound(s, i + |gap|, body);
  }

  lemma BlockFound(s: string, b: nat, body: string)
    requires BalancedBody(body) && HasAt(s, b, "{" + body + "}")
    ensures ParseBlock(s, b) == Done(body, b + |body| + 2)
  {
    hide FeedAll, ParseBlock;
    var x := "{" + body + "}";
    assert x[0..0 + |x|] == x;
    EndsBlockLocal(x, 0, s, b, |x|);
    BlockIs(s, b);
    SliceOfSlice(s, b, |x|, 1, |x| - 1);
    assert x[1..|x| - 1] == body;
  }

  lemma CondFound(s: string, a: nat, cond: string)
    requires BalancedCond(cond) && HasAt(s, a, "(" + cond + ")")
    ensures Skip(s, a) == a && FindClose(s, a, a) == Some(a + |cond| + 1) && s[a + 1..a + |cond| + 1] == cond
  {
    var x := "(" + cond + ")";
    hide Skip, FindClose;
    FirstOf(s, a, x);
    SkipNone(s, a);
    assert x[0..0 + |x|] == x;
    FindCloseLocal(x, 0, s, a, |x|);
    SliceOfSlice(s, a, |x|, 1, |x| - 1);
    assert x[1..|x| - 1] == cond;
  }

  lemma ArmParts(s: string, i: nat, gap: string, arm: Arm)
    requires HasAt(s, i, PrintArm(gap, arm))
    ensures HasAt(s, i, "if") && HasAt(s, i + 2, gap) && HasAt(s, i + 2 + |gap|, "(" + arm.cond + ")")
    ensures HasAt(s, i + 2 + |gap| + |arm.cond| + 2, PrintBlock(gap, arm.body))
    ensures |PrintArm(gap, arm)| == 2 + |gap| + |arm.cond| + 2 + |PrintBlock(gap, arm.body)|
  {
    var x, block := "(" + arm.cond + ")", PrintBlock(gap, arm.body);
    HasBoth(s, i, "if", gap + (x + block));
    HasBoth(s, i + 2, gap, x + block);
    HasBoth(s, i + 2 + |gap|, x, block);
  }

  lemma HasAtFits(s: string, i: nat, pat: string)
    requires HasAt(s, i, pat)
    ensures i + |pat| <= |s|
  {
  }

  lemma ReadArm(s: string, i: nat, gap: string, arm: Arm)
    requires AllGap(gap) && GoodArm(arm) && HasAt(s, i, PrintArm(gap, arm))
    ensures i + 2 <= |s| && HasAt(s, i, "if") && s[i] == 'i'
    ensures ParseArm(s, i + 2) == Done(arm, i + |PrintArm(gap, arm)|)
  {
    hide PrintArm, PrintBlock, ParseBlock, BalancedCond, BalancedBody, Skip, FindClose, HasAt, AllGap;
    ArmParts(s, i, gap, arm);
    FirstOf(s, i, "if");
    HasAtFits(s, i, "if");
    SkipGap(s, i + 2, gap);
    CondFound(s, i + 2 + |gap|, arm.cond);
    ReadBlock(s, i + 2 + |gap| + |arm.cond| + 2, gap, arm.body);
  }

  /** Nothing after the chain is taken for a continuation of it. */
  ghost predicate ChainStops(s: string, i: nat) {
    i <= |s| && !HasAt(s, Skip(s, i), "else")
  }

  lemma ElseWord(s: string, i: nat, gap: string, x: string)
    requires AllGap(gap) && HasAt(s, i, gap + ("else" + x))
    ensures Skip(s, i) == i + |gap| && HasAt(s, i + |gap|, "else") && HasAt(s, i + |gap| + 4, x)
  {
    HasBoth(s, i, gap, "else" + x);
    HasBoth(s, i + |gap|, "else", x);
    SkipGap(s, i, gap);
    FirstOf(s, i + |gap|, "else");
    SkipNone(s, i + |gap|);
  }

  lemma ElseIf(s: string, b: nat, gap: string, arm: Arm, rest: string)
    requires AllGap(gap) && GoodArm(arm) && HasAt(s, b, gap + (PrintArm(gap, arm) + rest))
    ensures b + |gap| + 2 <= |s| && Skip(s, b) == b + |gap| && HasAt(s, b + |gap|, "if")
    ensures ParseArm(s, b + |gap| + 2) == Done(arm, b + |gap| + |PrintArm(gap, arm)|)
    ensures HasAt(s, b + |gap| + |PrintArm(gap, arm)|, rest)
  {
    hide PrintArm, ParseArm, GoodArm, HasAt, Skip;
    HasBoth(s, b, gap, PrintArm(gap, arm) + rest);
    HasBoth(s, b + |gap|, PrintArm(gap, arm), rest);
    HasAtFits(s, b, gap);
    ReadArm(s, b + |gap|, gap, arm);
    SkipGap(s, b, gap);
    SkipNone(s, b + |gap|);
  }

  /** What the arms after the first, and the final else, are read back as. */
  function Branches(arms: seq<Arm>, last: Option<string>): seq<Arm> {
    arms + if last.None? then [] else [Arm("", last.value)]
  }

  function EndOf(s: string, end: nat, last: Option<string>): nat
    requires end <= |s|
  {
    if last.None? then Skip(s, end) else end
  }

  lemma BranchesUnfold(arms: seq<Arm>, last: Option<string>)
    ensures Branches(arms, last) ==
            if arms != [] then [arms[0]] + Branches(arms[1..], last) else if last.Some? then [Arm("", last.value)] else []
  {
  }

  lemma StopsHere(s: string, i: nat)
    requires ChainStops(s, i)
    ensures i <= |s| && !HasAt(s, Skip(s, i), "else")
  {
  }

  lemma {:induction false} ReadElse(s: string, i: nat, gap: string, arms: seq<Arm>, last: Option<string>)
    requires AllGap(gap) && (forall k :: 0 <= k < |arms| ==> GoodArm(arms[k])) && (last.Some? ==> BalancedBody(last.value))
    requires HasAt(s, i, PrintElse(gap, arms, last))
    requires last.None? ==> ChainStops(s, i + |PrintElse(gap, arms, last)|)
    ensures ParseElse(s, i) == Done(Branches(arms, last), EndOf(s, i + |PrintElse(gap, arms, last)|, last))
    decreases |arms|
  {
    hide PrintArm, PrintBlock, ParseBlock, ParseArm, ParseElse, GoodArm, BalancedBody, Skip, HasAt, Branches, ChainStops;
    HasAtFits(s, i, PrintElse(gap, arms, last));
    ElseUnfolds(s, i);
    BranchesUnfold(arms, last);
    if arms != [] {
      var rest := PrintElse(gap, arms[1..], last);
      ElseWord(s, i, gap, gap + (PrintArm(gap, arms[0]) + rest));
      ElseIf(s, i + |gap| + 4, gap, arms[0], rest);
      ReadElse(s, i + |gap| + 4 + |gap| + |PrintArm(gap, arms[0])|, gap, arms[1..], last);
    } else if last.Some? {
      ElseWord(s, i, gap, PrintBlock(gap, last.value));
      ReadBlock(s, i + |gap| + 4, gap, last.value);
      FirstOf(s, i + |gap| + 4 + |gap|, "if");
    } else {
      assert PrintElse(gap, arms, last) == "";
      StopsHere(s, i);
    }
  }

  /** Printing a chain anywhere in a text and parsing there gives back exactly its arms and its end. */
  lemma ParsePrint(pre: string, gap: string, arms: seq<Arm>, last: Option<string>, post: string)
    requires arms != [] && AllGap(gap) && (forall k :: 0 <= k < |arms| ==> GoodArm(arms[k]))
    requires last.Some? ==> BalancedBody(last.value)
    requires last.None? ==> ChainStops(pre + PrintChain(gap, arms, last) + post, |pre| + |PrintChain(gap, arms, last)|)
    ensures var s := pre + PrintChain(gap, arms, last) + post;
            ParseChain(s, |pre|) == Done(Branches(arms, last), EndOf(s, |pre| + |PrintChain(gap, arms, last)|, last))
  {
    hide PrintChain, ParseChain, GoodArm, BalancedBody, ChainStops, Skip;
    var s := pre + PrintChain(gap, arms, last) + post;
    assert s[|pre|..|pre| + |PrintChain(gap, arms, last)|] == PrintChain(gap, arms, last);
    ReadChain(s, |pre|, gap, arms, last);
  }

  lemma ReadChain(s: string, i: nat, gap: string, arms: seq<Arm>, last: Option<string>)
    requires arms != [] && AllGap(gap) && (forall k :: 0 <= k < |arms| ==> GoodArm(arms[k]))
    requires last.Some? ==> BalancedBody(last.value)
    requires HasAt(s, i, PrintChain(gap, arms, last))
    requires last.None? ==> ChainStops(s, i + |PrintChain(gap, arms, last)|)
    ensures ParseChain(s, i) == Done(Branches(arms, last), EndOf(s, i + |PrintChain(gap, arms, last)|, last))
  {
    hide PrintArm, PrintElse, ParseArm, ParseElse, GoodArm, BalancedBody, HasAt, Skip;
    var first, rest := PrintArm(gap, arms[0]), PrintElse(gap, arms[1..], last);
    HasBoth(s, i, first, rest);
    ReadArm(s, i, gap, arms[0]);
    SkipNone(s, i);
    ReadElse(s, i + |first|, gap, arms[1..], last);
    assert Branches(arms, last) == [arms[0]] + Branches(arms[1..], last);
  }
}
