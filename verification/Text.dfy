/** Lines, trimming and searching, as the Go `strings` package does them on ASCII text. */
module Text {
  import opened Options

  predicate IsSpace(ch: char) {
    ch == ' ' || ch == '\t' || ch == '\n' || ch == '\r' || ch == '\U{0B}' || ch == '\U{0C}'
  }

  predicate IsBlank(ch: char) {
    ch == ' ' || ch == '\t'
  }

  predicate IsDigit(ch: char) {
    '0' <= ch <= '9'
  }

  predicate IsWordChar(ch: char) {
    'a' <= ch <= 'z' || 'A' <= ch <= 'Z' || IsDigit(ch) || ch == '_'
  }

  /** An identifier. */
  predicate NameLike(s: string) {
    s != "" && forall i :: 0 <= i < |s| ==> IsWordChar(s[i])
  }

  /** Letters A to Z in small. */
  function ToLower(s: string): string {
    seq(|s|, i requires 0 <= i < |s| => if 'A' <= s[i] <= 'Z' then (s[i] as int + 32) as char else s[i])
  }

  lemma SliceOfSlice(s: string, start: nat, n: nat, i: nat, j: nat)
    requires start + n <= |s| && i <= j <= n
    ensures s[start + i..start + j] == s[start..start + n][i..j]
  {
    var x := s[start..start + n];
    assert forall k :: i <= k < j ==> x[k] == s[start + k];
    assert x[i..j] == s[start + i..start + j];
  }

  predicate AllSpace(s: string) {
    forall i :: 0 <= i < |s| ==> IsSpace(s[i])
  }

  // ---------------------------------------------------------------- trimming

  function TrimLeft(s: string): (r: string)
    ensures |r| <= |s| && (r != "" ==> !IsSpace(r[0]))
  {
    if s != "" && IsSpace(s[0]) then TrimLeft(s[1..]) else s
  }

  function TrimRight(s: string): (r: string)
    ensures |r| <= |s| && (r != "" ==> !IsSpace(r[|r| - 1]))
  {
    if s != "" && IsSpace(s[|s| - 1]) then TrimRight(s[..|s| - 1]) else s
  }

  function Trim(s: string): string {
    TrimRight(TrimLeft(s))
  }

  /** No white space at either end. */
  predicate Tight(s: string) {
    s == "" || (!IsSpace(s[0]) && !IsSpace(s[|s| - 1]))
  }

  lemma {:induction false} TrimLeftOf(a: string, b: string)
    requires AllSpace(a) && (b == "" || !IsSpace(b[0]))
    ensures TrimLeft(a + b) == b
  {
    if a == "" {
      assert a + b == b;
    } else {
      assert (a + b)[1..] == a[1..] + b;
      TrimLeftOf(a[1..], b);
    }
  }

  lemma {:induction false} TrimRightOf(b: string, c: string)
    requires AllSpace(c) && (b == "" || !IsSpace(b[|b| - 1]))
    ensures TrimRight(b + c) == b
  {
    if c == "" {
      assert b + c == b;
    } else {
      assert (b + c)[..|b + c| - 1] == b + c[..|c| - 1];
      TrimRightOf(b, c[..|c| - 1]);
    }
  }

  lemma {:induction false} AllSpaceTrims(a: string)
    requires AllSpace(a)
    ensures TrimLeft(a) == ""
  {
    if a != "" {
      AllSpaceTrims(a[1..]);
    }
  }

  /** Trimming removes exactly the white space around a tight text. */
  lemma TrimOf(a: string, b: string, c: string)
    requires AllSpace(a) && AllSpace(c) && Tight(b)
    ensures Trim(a + b + c) == b
  {
    if b == "" {
      assert a + b + c == a + c;
      AllSpaceTrims(a + c);
    } else {
      assert a + b + c == a + (b + c);
      TrimLeftOf(a, b + c);
      TrimRightOf(b, c);
    }
  }

  lemma TrimNone(v: string)
    requires Tight(v)
    ensures Trim(v) == v
  {
    TrimOf("", v, "");
    assert "" + v + "" == v;
  }

  lemma {:induction false} TrimLeftSplit(s: string) returns (a: string)
    ensures AllSpace(a) && s == a + TrimLeft(s)
  {
    if s != "" && IsSpace(s[0]) {
      a := TrimLeftSplit(s[1..]);
      a := [s[0]] + a;
    } else {
      a := "";
    }
  }

  lemma {:induction false} TrimRightSplit(s: string) returns (c: string)
    ensures AllSpace(c) && s == TrimRight(s) + c
    ensures TrimRight(s) <= s
  {
    if s != "" && IsSpace(s[|s| - 1]) {
      c := TrimRightSplit(s[..|s| - 1]);
      c := c + [s[|s| - 1]];
    } else {
      c := "";
    }
  }

  lemma TrimSplit(s: string) returns (a: string, c: string)
    ensures AllSpace(a) && AllSpace(c) && s == a + Trim(s) + c && Tight(Trim(s))
  {
    a := TrimLeftSplit(s);
    c := TrimRightSplit(TrimLeft(s));
    assert s == a + (Trim(s) + c);
  }

  /** Leading run of blanks and tabs. */
  function Leading(s: string): (r: string)
    ensures r <= s && forall i :: 0 <= i < |r| ==> IsBlank(r[i])
  {
    if s != "" && IsBlank(s[0]) then [s[0]] + Leading(s[1..]) else ""
  }

  // ---------------------------------------------------------------- lines

  function JoinLines(lines: seq<string>): string {
    if lines == [] then ""
    else if |lines| == 1 then lines[0]
    else lines[0] + "\n" + JoinLines(lines[1..])
  }

  function LineEnd(s: string, i: nat): (e: nat)
    requires i <= |s|
    ensures i <= e <= |s| && (e < |s| ==> s[e] == '\n') && forall j :: i <= j < e ==> s[j] != '\n'
    decreases |s| - i
  {
    if i == |s| || s[i] == '\n' then i else LineEnd(s, i + 1)
  }

  function SplitLines(s: string): (lines: seq<string>)
    ensures lines != []
    decreases |s|
  {
    var e := LineEnd(s, 0);
    if e == |s| then [s] else [s[..e]] + SplitLines(s[e + 1..])
  }

  predicate OneLine(s: string) {
    forall i :: 0 <= i < |s| ==> s[i] != '\n'
  }

  predicate AllOneLine(lines: seq<string>) {
    forall k :: 0 <= k < |lines| ==> OneLine(lines[k])
  }

  lemma AllOneLineConcat(a: seq<string>, b: seq<string>)
    ensures AllOneLine(a + b) <==> AllOneLine(a) && AllOneLine(b)
  {
    hide OneLine;
    if AllOneLine(a + b) {
      assert forall k :: 0 <= k < |a| ==> a[k] == (a + b)[k];
      assert forall k :: 0 <= k < |b| ==> b[k] == (a + b)[|a| + k];
    }
  }

  lemma {:induction false} JoinSplitLines(s: string)
    ensures JoinLines(SplitLines(s)) == s
    decreases |s|
  {
    var e := LineEnd(s, 0);
    if e < |s| {
      JoinSplitLines(s[e + 1..]);
      assert SplitLines(s)[1..] == SplitLines(s[e + 1..]);
      assert s == s[..e] + "\n" + s[e + 1..];
    }
  }

  lemma {:induction false} SplitLinesOneLine(s: string)
    ensures forall k :: 0 <= k < |SplitLines(s)| ==> OneLine(SplitLines(s)[k])
    decreases |s|
  {
    var e := LineEnd(s, 0);
    if e < |s| {
      SplitLinesOneLine(s[e + 1..]);
    }
  }

  lemma FirstLine(a: string, rest: string)
    requires OneLine(a)
    ensures SplitLines(a + "\n" + rest) == [a] + SplitLines(rest)
  {
    var s := a + "\n" + rest;
    assert forall j :: 0 <= j < |a| ==> s[j] == a[j];
    assert s[|a|] == '\n';
    assert LineEnd(s, 0) == |a|;
    assert s[..|a|] == a && s[|a| + 1..] == rest;
  }

  lemma {:induction false} SplitJoinLines(lines: seq<string>)
    requires lines != [] && forall k :: 0 <= k < |lines| ==> OneLine(lines[k])
    ensures SplitLines(JoinLines(lines)) == lines
  {
    if |lines| == 1 {
      assert OneLine(lines[0]) && LineEnd(lines[0], 0) == |lines[0]|;
      assert lines == [lines[0]];
    } else {
      hide OneLine;
      SplitJoinLines(lines[1..]);
      FirstLine(lines[0], JoinLines(lines[1..]));
      assert lines == [lines[0]] + lines[1..];
    }
  }

  /** Joining line groups and joining the joined groups are the same. */
  lemma {:induction false} JoinConcat(a: seq<string>, b: seq<string>)
    requires a != [] && b != []
    ensures JoinLines(a + b) == JoinLines(a) + "\n" + JoinLines(b)
  {
    if |a| == 1 {
      assert (a + b)[1..] == b;
    } else {
      assert (a + b)[1..] == a[1..] + b;
      JoinConcat(a[1..], b);
      assert JoinLines(a + b) == a[0] + "\n" + (JoinLines(a[1..]) + "\n" + JoinLines(b));
    }
  }

  lemma SplitConcat(u: string, v: string)
    ensures SplitLines(u + "\n" + v) == SplitLines(u) + SplitLines(v)
  {
    SplitLinesOneLine(u);
    SplitLinesOneLine(v);
    JoinSplitLines(u);
    JoinSplitLines(v);
    JoinConcat(SplitLines(u), SplitLines(v));
    SplitJoinLines(SplitLines(u) + SplitLines(v));
  }

  // ---------------------------------------------------------------- searching

  predicate HasAt(s: string, i: nat, pat: string) {
    i + |pat| <= |s| && s[i..i + |pat|] == pat
  }

  predicate Contains(s: string, pat: string) {
    exists i :: 0 <= i <= |s| && HasAt(s, i, pat)
  }

  function IndexFrom(s: string, i: nat, pat: string): (r: Option<nat>)
    ensures r.Some? ==> i <= r.value && r.value + |pat| <= |s|
    decreases |s| - i
  {
    if HasAt(s, i, pat) then Some(i) else if i >= |s| then None else IndexFrom(s, i + 1, pat)
  }

  lemma {:induction false} IndexFirst(s: string, i: nat, pat: string)
    ensures match IndexFrom(s, i, pat)
            case None => forall j :: i <= j ==> !HasAt(s, j, pat)
            case Some(k) => HasAt(s, k, pat) && forall j :: i <= j < k ==> !HasAt(s, j, pat)
    decreases |s| - i
  {
    if i < |s| && !HasAt(s, i, pat) {
      IndexFirst(s, i + 1, pat);
    }
  }

  lemma HasAtChar(s: string, j: nat, p: string, i: nat)
    requires i < |p|
    ensures HasAt(s, j, p) ==> j + i < |s| && s[j + i] == p[i]
  {
    if HasAt(s, j, p) {
      assert s[j + i] == s[j..j + |p|][i];
    }
  }
}
