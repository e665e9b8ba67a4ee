/** Threading the transaction handle through the store calls of a body, the wrapper around the result,
    and the gate that looks for both. */
module TxThread {
  import opened Options
  import opened Text
  import opened Sorting
  import opened StoreCall
  import opened CallArgs
  import opened TxWrap

  datatype TxCall = TxCall(recv: string, name: string, ctx: string, tx: string)

  /** Text of identifiers and selectors: no white space, parenthesis or comma. */
  predicate Word(x: string) {
    x != "" && forall i :: 0 <= i < |x| ==> !IsSpace(x[i]) && x[i] != '(' && x[i] != ')' && x[i] != ','
  }

  predicate Wordy(tc: TxCall) {
    Word(tc.recv) && Word(tc.name) && Word(tc.ctx) && Word(tc.tx)
  }

  /** The head of a call site up to the comma after its context argument. */
  function Head(tc: TxCall): string {
    tc.recv + "." + tc.name + "(" + tc.ctx + ","
  }

  /** All the proofs need of such a head: one parenthesis inside, its only comma at the end, no space. */
  ghost predicate Pattern(p: string) {
    && |p| >= 2 && p[|p| - 1] == ','
    && (forall i :: 0 <= i < |p| - 1 ==> p[i] != ',' && !IsSpace(p[i]))
    && exists i :: 0 <= i < |p| - 1 && p[i] == '('
  }

  lemma HeadIsPattern(tc: TxCall)
    requires Wordy(tc)
    ensures Pattern(Head(tc))
  {
    var q := tc.recv + "." + tc.name + "(" + tc.ctx;
    assert Head(tc) == q + ",";
    assert q[|tc.recv| + 1 + |tc.name|] == '(';
    assert Head(tc)[|tc.recv| + 1 + |tc.name|] == '(';
    forall i | 0 <= i < |q| ensures q[i] != ',' && !IsSpace(q[i]) {
    }
  }

  /** The text already starts with the handle, white space around it allowed, and a comma. */
  predicate Leads(t: string, tx: string) {
    var u := TrimLeft(t);
    HasAt(u, 0, tx) && (var v := TrimLeft(u[|tx|..]); v != "" && v[0] == ',')
  }

  function DropBlanks(t: string): (r: string)
    ensures |r| <= |t|
  {
    if t != "" && IsBlank(t[0]) then DropBlanks(t[1..]) else t
  }

  /** The handle inserted after every head that does not carry it yet. */
  function Thread(t: string, p: string, tx: string): string
    requires p != ""
    decreases |t|, 0
  {
    match IndexFrom(t, 0, p)
    case None => t
    case Some(k) =>
      var e := k + |p|;
      t[..e] + Threaded(t[e..], p, tx)
  }

  /** What follows a head. */
  function Threaded(rest: string, p: string, tx: string): string
    requires p != ""
    decreases |rest|, 1
  {
    if Leads(rest, tx) then Thread(rest, p, tx) else (" " + tx + ", ") + Thread(DropBlanks(rest), p, tx)
  }

  /** A site still without the handle. */
  ghost predicate Site(t: string, p: string, tx: string, h: nat) {
    HasAt(t, h, p) && !Leads(t[h + |p|..], tx)
  }

  // ---------------------------------------------------------------- searching in parts

  lemma HasAtConcat(a: string, b: string, j: nat, p: string)
    ensures j + |p| <= |a| ==> (HasAt(a + b, j, p) <==> HasAt(a, j, p))
    ensures j >= |a| ==> (HasAt(a + b, j, p) <==> HasAt(b, j - |a|, p))
  {
    if j + |p| <= |a| {
      assert (a + b)[j..j + |p|] == a[j..j + |p|];
    }
    if j >= |a| && j + |p| <= |a + b| {
      assert (a + b)[j..j + |p|] == b[j - |a|..j - |a| + |p|];
    }
  }

  lemma {:induction false} IndexShift(s: string, i: nat, w: nat, p: string)
    requires i <= w <= |s| && forall j :: i <= j < w ==> !HasAt(s, j, p)
    ensures IndexFrom(s, i, p) == IndexFrom(s, w, p)
    decreases w - i
  {
    if i < w {
      IndexShift(s, i + 1, w, p);
    }
  }

  lemma IndexTail(a: string, b: string, i: nat, p: string)
    requires i <= |b|
    ensures IndexFrom(a + b, |a| + i, p) ==
            match IndexFrom(b, i, p) case None => None case Some(k) => Some(|a| + k)
  {
    hide HasAt, IndexFrom;
    forall j: nat ensures HasAt(a + b, |a| + j, p) <==> HasAt(b, j, p) {
      HasAtConcat(a, b, |a| + j, p);
    }
    SearchShift(a + b, b, |a|, i, p);
  }

  lemma {:induction false} SearchShift(s: string, b: string, n: nat, i: nat, p: string)
    requires i <= |b| && |s| == n + |b|
    requires forall j: nat :: HasAt(s, n + j, p) <==> HasAt(b, j, p)
    ensures IndexFrom(s, n + i, p) == match IndexFrom(b, i, p) case None => None case Some(k) => Some(n + k)
    decreases |b| - i
  {
    hide HasAt, IndexFrom;
    IndexTurn(s, n + i, p);
    IndexTurn(b, i, p);
    if !HasAt(b, i, p) && i < |b| {
      SearchShift(s, b, n, i + 1, p);
    }
  }

  /** One turn of the search. */
  lemma IndexTurn(s: string, i: nat, p: string)
    ensures IndexFrom(s, i, p) == if HasAt(s, i, p) then Some(i) else if i >= |s| then None else IndexFrom(s, i + 1, p)
  {
    hide HasAt;
  }

  /** Text without a parenthesis that ends in a comma or a space cannot hold the start of a head. */
  lemma NoStart(w: string, y: string, p: string, j: nat)
    requires Pattern(p) && w != "" && (w[|w| - 1] == ',' || IsSpace(w[|w| - 1]))
    requires forall i :: 0 <= i < |w| ==> w[i] != '('
    requires j < |w|
    ensures !HasAt(w + y, j, p)
  {
    var i :| 0 <= i < |p| - 1 && p[i] == '(';
    HasAtChar(w + y, j, p, i);
    assert HasAt(w + y, j, p) ==> j + i >= |w|;
    if |w| - 1 - j < |p| {
      HasAtChar(w + y, j, p, |w| - 1 - j);
    }
  }

  lemma ThreadFound(t: string, pre: string, rest: string, p: string, tx: string)
    requires p != "" && t == pre + rest && |pre| >= |p| && IndexFrom(t, 0, p) == Some(|pre| - |p|)
    ensures Thread(t, p, tx) == pre + Threaded(rest, p, tx)
  {
    assert t[..|pre|] == pre && t[|pre|..] == rest;
  }

  lemma ThreadPrefix(w: string, y: string, p: string, tx: string)
    requires Pattern(p) && w != "" && (w[|w| - 1] == ',' || IsSpace(w[|w| - 1]))
    requires forall i :: 0 <= i < |w| ==> w[i] != '('
    ensures Thread(w + y, p, tx) == w + Thread(y, p, tx)
  {
    hide Threaded, HasAt, Pattern, IsSpace;
    forall j | 0 <= j < |w| ensures !HasAt(w + y, j, p) {
      NoStart(w, y, p, j);
    }
    PatternShape(p);
    IndexShift(w + y, 0, |w|, p);
    IndexTail(w, y, 0, p);
    match IndexFrom(y, 0, p)
    case None =>
    case Some(k) =>
      var e := k + |p|;
      assert w + y == (w + y[..e]) + y[e..] && y == y[..e] + y[e..];
      ThreadFound(y, y[..e], y[e..], p, tx);
      ThreadFound(w + y, w + y[..e], y[e..], p, tx);
      assert w + y[..e] + Threaded(y[e..], p, tx) == w + (y[..e] + Threaded(y[e..], p, tx));
  }

  lemma PatternShape(p: string)
    requires Pattern(p)
    ensures |p| >= 2
  {
  }

  lemma LeadsShape(a: string, tx: string, b: string, y: string)
    requires AllSpace(a) && AllSpace(b) && Word(tx)
    ensures Leads(a + tx + b + "," + y, tx)
  {
    var u := tx + (b + ("," + y));
    assert a + tx + b + "," + y == a + u;
    TrimLeftOf(a, u);
    assert u[0..|tx|] == tx && u[|tx|..] == b + ("," + y);
    TrimLeftOf(b, "," + y);
  }

  lemma Regroup(a: string, tx: string, b: string, z: string)
    ensures a + (tx + (b + ("," + z))) == (a + tx + b + ",") + z
  {
  }

  /** What a leading handle looks like. */
  lemma LeadSplit(t: string, tx: string) returns (w: string, z: string)
    requires Leads(t, tx) && Word(tx)
    ensures t == w + z && w != "" && w[|w| - 1] == ',' && (forall i :: 0 <= i < |w| ==> w[i] != '(')
    ensures forall i :: 0 <= i < |w| - 1 ==> t[i] != ','
    ensures forall y :: Leads(w + y, tx)
  {
    var a := TrimLeftSplit(t);
    var u := TrimLeft(t);
    var b := TrimLeftSplit(u[|tx|..]);
    var v := TrimLeft(u[|tx|..]);
    w, z := a + tx + b + ",", v[1..];
    assert u == u[..|tx|] + u[|tx|..] && u[0..|tx|] == u[..|tx|];
    assert v == "," + z;
    Regroup(a, tx, b, z);
    forall y ensures Leads(w + y, tx) {
      LeadsShape(a, tx, b, y);
    }
    LeadWords(a, tx, b);
  }

  lemma LeadWords(a: string, tx: string, b: string)
    requires AllSpace(a) && AllSpace(b) && Word(tx)
    ensures var w := a + tx + b + ","; (forall i :: 0 <= i < |w| ==> w[i] != '(') && forall i :: 0 <= i < |w| - 1 ==> w[i] != ','
  {
    var w := a + tx + b + ",";
    forall i | 0 <= i < |w| ensures w[i] != '(' && (i < |w| - 1 ==> w[i] != ',') {
      if i < |a| {
        assert IsSpace(a[i]);
      } else if |a| + |tx| <= i < |w| - 1 {
        assert IsSpace(b[i - |a| - |tx|]);
      }
    }
  }

  lemma InsertedLeads(tx: string, y: string)
    requires Word(tx)
    ensures Leads(" " + tx + "," + y, tx)
  {
    var u := tx + ("," + y);
    assert " " + tx + "," + y == " " + u;
    TrimLeftOf(" ", u);
    assert u[0..|tx|] == tx && u[|tx|..] == "" + ("," + y);
    TrimLeftOf("", "," + y);
  }

  lemma ThreadLeads(t: string, p: string, tx: string)
    requires Leads(t, tx) && Pattern(p) && Word(tx)
    ensures Leads(Thread(t, p, tx), tx)
  {
    var w, z := LeadSplit(t, tx);
    ThreadPrefix(w, z, p, tx);
  }

  // ---------------------------------------------------------------- every site gets the handle

  /** What the gate looks for, up to the comma after the handle. */
  function Needle(p: string, tx: string): string {
    p + (" " + tx + ",")
  }

  /** The text carries the handle at some site, or has a site that is still to be threaded. */
  ghost predicate Reaches(t: string, p: string, tx: string) {
    Contains(t, Needle(p, tx)) || exists h :: Site(t, p, tx, h)
  }

  lemma ContainsTail(a: string, b: string, x: string)
    requires Contains(b, x)
    ensures Contains(a + b, x)
  {
    var i :| 0 <= i <= |b| && HasAt(b, i, x);
    HasAtConcat(a, b, |a| + i, x);
    assert HasAt(a + b, |a| + i, x);
  }

  lemma ContainsHead(a: string, b: string, x: string)
    requires Contains(a, x)
    ensures Contains(a + b, x)
  {
    var i :| 0 <= i <= |a| && HasAt(a, i, x);
    HasAtConcat(a, b, i, x);
    assert HasAt(a + b, i, x);
  }

  lemma HasAtContains(s: string, i: nat, x: string)
    requires HasAt(s, i, x)
    ensures Contains(s, x)
  {
  }

  lemma NeedleStartsWithHead(t: string, h: nat, p: string, tx: string)
    requires HasAt(t, h, Needle(p, tx))
    ensures HasAt(t, h, p) && HasAt(t, h + |p|, " " + tx + ",")
  {
    var n := Needle(p, tx);
    assert t[h..h + |p|] == t[h..h + |n|][..|p|] == p;
    assert t[h + |p|..h + |n|] == t[h..h + |n|][|p|..] == " " + tx + ",";
  }

  /** Two heads never overlap unless they end together. */
  lemma NoOverlap(t: string, p: string, h: nat, q: string, k: nat)
    requires Pattern(p) && Pattern(q) && HasAt(t, h, p) && HasAt(t, k, q)
    ensures k + |q| <= h || k + |q| >= h + |p|
  {
    HasAtChar(t, k, q, |q| - 1);
    if h < k + |q| < h + |p| {
      HasAtChar(t, h, p, k + |q| - 1 - h);
    }
  }

  /** Whether text carries the handle is settled by its first comma. */
  lemma LeadsLocal(x: string, y: string, y': string, tx: string)
    requires Word(tx) && x != "" && x[|x| - 1] == ',' && Leads(x + y, tx)
    ensures Leads(x + y', tx)
  {
    var w, z := LeadSplit(x + y, tx);
    assert (x + y)[|x| - 1] == ',';
    var x' := x[|w|..];
    assert w == (x + y)[..|w|] == x[..|w|];
    assert x + y' == w + (x' + y');
  }

  lemma SiteTail(a: string, b: string, p: string, tx: string, h: nat)
    requires h >= |a|
    ensures Site(a + b, p, tx, h) <==> Site(b, p, tx, h - |a|)
  {
    HasAtConcat(a, b, h, p);
    if HasAt(b, h - |a|, p) {
      assert (a + b)[h + |p|..] == b[h - |a| + |p|..];
    }
  }

  lemma ReachesTail(a: string, b: string, p: string, tx: string)
    requires Reaches(b, p, tx)
    ensures Reaches(a + b, p, tx)
  {
    if Contains(b, Needle(p, tx)) {
      ContainsTail(a, b, Needle(p, tx));
    } else {
      var h: nat :| Site(b, p, tx, h);
      SiteTail(a, b, p, tx, |a| + h);
      assert Site(a + b, p, tx, |a| + h);
    }
  }

  /** A position where the text carries, or is still to get, the handle. */
  ghost predicate Mark(t: string, p: string, tx: string, h: nat) {
    HasAt(t, h, Needle(p, tx)) || Site(t, p, tx, h)
  }

  lemma MarkTail(a: string, b: string, p: string, tx: string, h: nat)
    requires h >= |a|
    ensures Mark(a + b, p, tx, h) <==> Mark(b, p, tx, h - |a|)
  {
    SiteTail(a, b, p, tx, h);
    HasAtConcat(a, b, h, Needle(p, tx));
  }

  lemma MarkReaches(t: string, p: string, tx: string, h: nat)
    requires Mark(t, p, tx, h)
    ensures Reaches(t, p, tx)
  {
    if HasAt(t, h, Needle(p, tx)) {
      HasAtContains(t, h, Needle(p, tx));
    }
  }

  lemma MarkHasHead(t: string, p: string, tx: string, h: nat)
    requires Mark(t, p, tx, h)
    ensures HasAt(t, h, p)
  {
    if HasAt(t, h, Needle(p, tx)) {
      NeedleStartsWithHead(t, h, p, tx);
    }
  }

  lemma {:induction false} DropSplit(t: string) returns (b: string)
    ensures t == b + DropBlanks(t) && forall i :: 0 <= i < |b| ==> IsBlank(t[i])
  {
    if t != "" && IsBlank(t[0]) {
      b := DropSplit(t[1..]);
      b := [t[0]] + b;
    } else {
      b := "";
    }
  }

  lemma MarkDrop(t: string, p: string, tx: string, h: nat)
    requires Pattern(p) && Mark(t, p, tx, h)
    ensures exists h' :: Mark(DropBlanks(t), p, tx, h')
  {
    var b := DropSplit(t);
    MarkHasHead(t, p, tx, h);
    HasAtChar(t, h, p, 0);
    assert h >= |b|;
    MarkTail(b, DropBlanks(t), p, tx, h);
    assert Mark(DropBlanks(t), p, tx, h - |b|);
  }

  /** The head that has just been passed: the handle follows it, or is put there. */
  lemma JustThreaded(pre: string, rest: string, p: string, q: string, tx: string, h: nat)
    requires Pattern(p) && Pattern(q) && Word(tx) && h + |p| == |pre| && Mark(pre + rest, p, tx, h)
    ensures Contains(pre + Threaded(rest, q, tx), Needle(p, tx))
  {
    hide DropBlanks, Thread;
    MarkHasHead(pre + rest, p, tx, h);
    HasAtConcat(pre, rest, h, p);
    assert pre == pre[..h] + p;
    var y := Threaded(rest, q, tx);
    var m := " " + tx + ",";
    var z: string;
    if Leads(rest, tx) {
      assert (pre + rest)[h + |p|..] == rest;
      assert HasAt(pre + rest, h, Needle(p, tx));
      z := ThreadPastHandle(pre, rest, p, q, tx, h);
    } else {
      z := " " + Thread(DropBlanks(rest), q, tx);
      assert " " + tx + ", " == m + " ";
    }
    assert y == m + z;
    NeedleThere(pre[..h], p, tx, z);
    assert pre + y == pre[..h] + Needle(p, tx) + z;
  }

  lemma HandleHasNoParen(tx: string)
    requires Word(tx)
    ensures var m := " " + tx + ","; forall i :: 0 <= i < |m| ==> m[i] != '('
  {
    var m := " " + tx + ",";
    forall i | 0 <= i < |m| ensures m[i] != '(' {
      assert 0 < i < |m| - 1 ==> m[i] == tx[i - 1];
    }
  }

  lemma ThreadPastHandle(pre: string, rest: string, p: string, q: string, tx: string, h: nat) returns (z: string)
    requires Pattern(q) && Word(tx) && h + |p| == |pre| && HasAt(pre + rest, h, Needle(p, tx))
    ensures Thread(rest, q, tx) == " " + tx + "," + z
  {
    var m := " " + tx + ",";
    NeedleStartsWithHead(pre + rest, h, p, tx);
    HasAtConcat(pre, rest, |pre|, m);
    assert rest == m + rest[|m|..];
    HandleHasNoParen(tx);
    ThreadPrefix(m, rest[|m|..], q, tx);
    z := Thread(rest[|m|..], q, tx);
  }

  lemma NeedleThere(a: string, p: string, tx: string, z: string)
    ensures Contains(a + Needle(p, tx) + z, Needle(p, tx))
  {
    var s, n := a + Needle(p, tx) + z, Needle(p, tx);
    assert s[|a|..|a| + |n|] == n;
    assert HasAt(s, |a|, n);
  }

  /** Threading some calls never undoes a site of another call: it stays open or becomes threaded. */
  lemma {:induction false} ReachesStays(t: string, p: string, q: string, tx: string, h: nat)
    requires Pattern(p) && Pattern(q) && Word(tx) && Mark(t, p, tx, h)
    ensures Reaches(Thread(t, q, tx), p, tx)
    decreases |t|, 0
  {
    hide Leads, Mark, DropBlanks, Site, HasAt;
    match IndexFrom(t, 0, q)
    case None => MarkReaches(t, p, tx, h);
    case Some(k) =>
      var pre, rest := t[..k + |q|], t[k + |q|..];
      assert t == pre + rest;
      ThreadFound(t, pre, rest, q, tx);
      IndexFirst(t, 0, q);
      MarkHasHead(t, p, tx, h);
      NoOverlap(t, p, h, q, k);
      if |pre| <= h {
        MarkTail(pre, rest, p, tx, h);
        ThreadedReaches(rest, p, q, tx, h - |pre|);
        ReachesTail(pre, Threaded(rest, q, tx), p, tx);
      } else if |pre| == h + |p| {
        JustThreaded(pre, rest, p, q, tx, h);
      } else {
        HeadMark(pre, rest, Threaded(rest, q, tx), p, q, tx, h, k);
      }
  }

  lemma {:induction false} ThreadedReaches(rest: string, p: string, q: string, tx: string, h: nat)
    requires Pattern(p) && Pattern(q) && Word(tx) && Mark(rest, p, tx, h)
    ensures Reaches(Threaded(rest, q, tx), p, tx)
    decreases |rest|, 1
  {
    hide Leads, Mark, DropBlanks, Thread;
    if Leads(rest, tx) {
      ReachesStays(rest, p, q, tx, h);
    } else {
      MarkDrop(rest, p, tx, h);
      var h': nat :| Mark(DropBlanks(rest), p, tx, h');
      ReachesStays(DropBlanks(rest), p, q, tx, h');
      ReachesTail(" " + tx + ", ", Thread(DropBlanks(rest), q, tx), p, tx);
    }
  }

  lemma TailConcat(a: string, b: string, n: nat)
    requires n <= |a|
    ensures (a + b)[n..] == a[n..] + b
  {
  }

  /** A mark that lies wholly before the end of a later head is untouched by what happens after it. */
  lemma HeadMark(pre: string, rest: string, y: string, p: string, q: string, tx: string, h: nat, k: nat)
    requires Pattern(p) && Pattern(q) && Word(tx) && Mark(pre + rest, p, tx, h)
    requires h + |p| < |pre| && pre != "" && |pre| == k + |q| && HasAt(pre + rest, k, q)
    ensures Reaches(pre + y, p, tx)
  {
    HasAtChar(pre + rest, k, q, |q| - 1);
    assert pre[|pre| - 1] == ',';
    if HasAt(pre + rest, h, Needle(p, tx)) {
      HeadNeedle(pre, rest, p, q, tx, h, k);
      ContainsHead(pre, y, Needle(p, tx));
    } else {
      HasAtConcat(pre, rest, h, p);
      HasAtConcat(pre, y, h, p);
      var x := pre[h + |p|..];
      TailConcat(pre, rest, h + |p|);
      TailConcat(pre, y, h + |p|);
      if Leads(x + y, tx) {
        LeadsLocal(x, y, rest, tx);
      }
      assert Site(pre + y, p, tx, h);
    }
  }

  /** After its own pass, a call with an open or a threaded site carries the handle. */
  lemma {:induction false} ReachedWhenThreaded(t: string, p: string, tx: string, h: nat)
    requires Pattern(p) && Word(tx) && Mark(t, p, tx, h)
    ensures Contains(Thread(t, p, tx), Needle(p, tx))
    decreases |t|, 0
  {
    hide Leads, Mark, DropBlanks, Site, HasAt;
    MarkHasHead(t, p, tx, h);
    IndexFirst(t, 0, p);
    var k := IndexFrom(t, 0, p).value;
    var pre, rest := t[..k + |p|], t[k + |p|..];
    assert t == pre + rest;
    ThreadFound(t, pre, rest, p, tx);
    NoOverlap(t, p, h, p, k);
    if |pre| <= h {
      MarkTail(pre, rest, p, tx, h);
      ThreadedReached(rest, p, tx, h - |pre|);
      ContainsTail(pre, Threaded(rest, p, tx), Needle(p, tx));
    } else {
      JustThreaded(pre, rest, p, p, tx, h);
    }
  }

  lemma {:induction false} ThreadedReached(rest: string, p: string, tx: string, h: nat)
    requires Pattern(p) && Word(tx) && Mark(rest, p, tx, h)
    ensures Contains(Threaded(rest, p, tx), Needle(p, tx))
    decreases |rest|, 1
  {
    hide Leads, Mark, DropBlanks, Thread;
    if Leads(rest, tx) {
      ReachedWhenThreaded(rest, p, tx, h);
    } else {
      MarkDrop(rest, p, tx, h);
      var h': nat :| Mark(DropBlanks(rest), p, tx, h');
      ReachedWhenThreaded(DropBlanks(rest), p, tx, h');
      ContainsTail(" " + tx + ", ", Thread(DropBlanks(rest), p, tx), Needle(p, tx));
    }
  }

  /** All calls threaded one after the other. */
  function ThreadAll(t: string, tcs: seq<TxCall>): string {
    if tcs == [] then t
    else
      var n := |tcs| - 1;
      Thread(ThreadAll(t, tcs[..n]), Head(tcs[n]), tcs[n].tx)
  }

  lemma {:induction false} ReachesAll(t: string, tcs: seq<TxCall>, tc: TxCall, tx: string)
    requires Wordy(tc) && tc.tx == tx && forall i :: 0 <= i < |tcs| ==> Wordy(tcs[i]) && tcs[i].tx == tx
    requires Reaches(t, Head(tc), tx)
    ensures Reaches(ThreadAll(t, tcs), Head(tc), tx)
    ensures tc in tcs ==> Contains(ThreadAll(t, tcs), Needle(Head(tc), tx))
  {
    hide Pattern, Wordy, Head;
    if tcs != [] {
      var n := |tcs| - 1;
      ReachesAll(t, tcs[..n], tc, tx);
      HeadIsPattern(tc);
      HeadIsPattern(tcs[n]);
      var u := ThreadAll(t, tcs[..n]);
      var h := MarkOf(u, Head(tc), tx);
      WordTx(tc);
      ReachesStays(u, Head(tc), Head(tcs[n]), tx, h);
      if tc == tcs[n] {
        ReachedWhenThreaded(u, Head(tc), tx, h);
      } else if tc in tcs {
        assert tc in tcs[..n];
        NeedleStays(u, Head(tc), Head(tcs[n]), tx);
      }
    }
  }

  lemma WordTx(tc: TxCall)
    requires Wordy(tc)
    ensures Word(tc.tx)
  {
  }

  lemma MarkOf(t: string, p: string, tx: string) returns (h: nat)
    requires Reaches(t, p, tx)
    ensures Mark(t, p, tx, h)
  {
    if Contains(t, Needle(p, tx)) {
      h :| 0 <= h <= |t| && HasAt(t, h, Needle(p, tx));
    } else {
      h :| Site(t, p, tx, h);
    }
  }

  /** A threaded site is never undone by a later call's pass. */
  lemma {:induction false} NeedleStays(t: string, p: string, q: string, tx: string)
    requires Pattern(p) && Pattern(q) && Word(tx) && Contains(t, Needle(p, tx))
    ensures Contains(Thread(t, q, tx), Needle(p, tx))
    decreases |t|, 0
  {
    hide Leads, DropBlanks, HasAt, Threaded;
    var n := Needle(p, tx);
    var h :| 0 <= h <= |t| && HasAt(t, h, n);
    match IndexFrom(t, 0, q)
    case None =>
    case Some(k) =>
      var pre, rest := t[..k + |q|], t[k + |q|..];
      assert t == pre + rest;
      ThreadFound(t, pre, rest, q, tx);
      IndexFirst(t, 0, q);
      NeedleStartsWithHead(t, h, p, tx);
      NoOverlap(t, p, h, q, k);
      if |pre| <= h {
        HasAtConcat(pre, rest, h, n);
        HasAtContains(rest, h - |pre|, n);
        ThreadedNeedleStays(rest, p, q, tx);
        ContainsTail(pre, Threaded(rest, q, tx), n);
      } else if |pre| == h + |p| {
        assert Mark(pre + rest, p, tx, h);
        JustThreaded(pre, rest, p, q, tx, h);
      } else {
        HeadNeedle(pre, rest, p, q, tx, h, k);
        ContainsHead(pre, Threaded(rest, q, tx), n);
      }
  }

  lemma HeadNeedle(pre: string, rest: string, p: string, q: string, tx: string, h: nat, k: nat)
    requires Pattern(p) && Pattern(q) && Word(tx) && HasAt(pre + rest, h, Needle(p, tx))
    requires h + |p| < |pre| && |pre| == k + |q| && HasAt(pre + rest, k, q)
    ensures Contains(pre, Needle(p, tx))
  {
    var n := Needle(p, tx);
    HasAtChar(pre + rest, k, q, |q| - 1);
    if |pre| < h + |n| {
      HasAtChar(pre + rest, h, n, |pre| - 1 - h);
    }
    HasAtConcat(pre, rest, h, n);
    HasAtContains(pre, h, n);
  }

  lemma {:induction false} ThreadedNeedleStays(rest: string, p: string, q: string, tx: string)
    requires Pattern(p) && Pattern(q) && Word(tx) && Contains(rest, Needle(p, tx))
    ensures Contains(Threaded(rest, q, tx), Needle(p, tx))
    decreases |rest|, 1
  {
    hide Leads, DropBlanks, Thread, HasAt;
    if Leads(rest, tx) {
      NeedleStays(rest, p, q, tx);
    } else {
      var h: nat :| h <= |rest| && HasAt(rest, h, Needle(p, tx));
      NeedleDrop(rest, p, tx, h);
      NeedleStays(DropBlanks(rest), p, q, tx);
      ContainsTail(" " + tx + ", ", Thread(DropBlanks(rest), q, tx), Needle(p, tx));
    }
  }

  lemma NeedleDrop(t: string, p: string, tx: string, h: nat)
    requires Pattern(p) && HasAt(t, h, Needle(p, tx))
    ensures Contains(DropBlanks(t), Needle(p, tx))
  {
    var b := DropSplit(t);
    var n := Needle(p, tx);
    HasAtChar(t, h, n, 0);
    assert n[0] == p[0];
    assert h >= |b|;
    HasAtConcat(b, DropBlanks(t), h, n);
    HasAtContains(DropBlanks(t), h - |b|, n);
  }

  // ---------------------------------------------------------------- threading again

  /** Every head in the text carries the handle. */
  ghost predicate NoSite(t: string, p: string, tx: string) {
    forall h: nat :: !Site(t, p, tx, h)
  }

  lemma NoSiteTail(a: string, b: string, p: string, tx: string)
    requires NoSite(a + b, p, tx)
    ensures NoSite(b, p, tx)
  {
    hide Site;
    forall h: nat ensures !Site(b, p, tx, h) {
      SiteTail(a, b, p, tx, |a| + h);
    }
  }

  lemma NoSiteHere(t: string, p: string, tx: string, h: nat)
    requires NoSite(t, p, tx) && HasAt(t, h, p)
    ensures Leads(t[h + |p|..], tx)
  {
    assert !Site(t, p, tx, h);
  }

  /** What follows a head carries the handle once it is threaded. */
  lemma ThreadedLeads(rest: string, q: string, tx: string)
    requires Pattern(q) && Word(tx)
    ensures Leads(Threaded(rest, q, tx), tx)
  {
    if Leads(rest, tx) {
      ThreadLeads(rest, q, tx);
    } else {
      var y := Thread(DropBlanks(rest), q, tx);
      InsertedLeads(tx, " " + y);
      assert " " + tx + ", " + y == " " + tx + "," + (" " + y);
    }
  }

  /** A head before the end of the one just passed: where it carried the handle it still does. */
  lemma SiteInPrefix(pre: string, rest: string, y: string, p: string, q: string, tx: string, h: nat, k: nat)
    requires Pattern(p) && Pattern(q) && Word(tx) && |pre| == k + |q| && HasAt(pre + rest, k, q) && h < |pre|
    requires Leads(y, tx) && (NoSite(pre + rest, p, tx) || (p == q && IndexFrom(pre + rest, 0, p) == Some(k)))
    ensures !Site(pre + y, p, tx, h)
  {
    hide Leads, NoSite, Pattern, HasAt, Word;
    if HasAt(pre + y, h, p) {
      HeadInPrefix(pre, rest, y, p, q, h, k);
      TailConcat(pre, rest, h + |p|);
      TailConcat(pre, y, h + |p|);
      if h + |p| == |pre| {
        assert pre[h + |p|..] + y == y;
      } else if NoSite(pre + rest, p, tx) {
        NoSiteHere(pre + rest, p, tx, h);
        LeadsCarries(pre, rest, y, tx, h + |p|);
      } else {
        IndexFirst(pre + rest, 0, p);
      }
    }
  }

  lemma HeadInPrefix(pre: string, rest: string, y: string, p: string, q: string, h: nat, k: nat)
    requires Pattern(p) && Pattern(q) && |pre| == k + |q| && HasAt(pre + rest, k, q) && h < |pre| && HasAt(pre + y, h, p)
    ensures h + |p| <= |pre| && HasAt(pre + rest, h, p) && pre[|pre| - 1] == ','
  {
    hide HasAt;
    HasAtConcat(pre, rest, k, q);
    HasAtConcat(pre, y, k, q);
    NoOverlap(pre + y, p, h, q, k);
    HasAtConcat(pre, rest, h, p);
    HasAtConcat(pre, y, h, p);
    HasAtChar(pre + rest, k, q, |q| - 1);
  }

  lemma LeadsCarries(pre: string, rest: string, y: string, tx: string, e: nat)
    requires e < |pre| && pre[|pre| - 1] == ',' && Word(tx) && Leads(pre[e..] + rest, tx)
    ensures Leads(pre[e..] + y, tx)
  {
    hide Leads, Word;
    var x := pre[e..];
    assert x[|x| - 1] == ',';
    LeadsLocal(x, rest, y, tx);
  }

  /** A pass leaves no site of its own call open, and opens none of another call. */
  lemma {:induction false} PassLeavesNoSite(t: string, p: string, q: string, tx: string)
    requires Pattern(p) && Pattern(q) && Word(tx) && (p == q || NoSite(t, p, tx))
    ensures NoSite(Thread(t, q, tx), p, tx)
    decreases |t|, 0
  {
    hide Leads, HasAt, DropBlanks, Pattern, Threaded;
    PatternShape(q);
    IndexFirst(t, 0, q);
    match IndexFrom(t, 0, q)
    case None =>
    case Some(k) =>
      var pre, rest := t[..k + |q|], t[k + |q|..];
      var y := Threaded(rest, q, tx);
      assert t == pre + rest;
      ThreadFound(t, pre, rest, q, tx);
      if NoSite(t, p, tx) {
        NoSiteTail(pre, rest, p, tx);
      }
      ThreadedLeavesNoSite(rest, p, q, tx);
      ThreadedLeads(rest, q, tx);
      forall h: nat ensures !Site(pre + y, p, tx, h) {
        if h < |pre| {
          SiteInPrefix(pre, rest, y, p, q, tx, h, k);
        } else {
          SiteTail(pre, y, p, tx, h);
        }
      }
  }

  lemma {:induction false} ThreadedLeavesNoSite(rest: string, p: string, q: string, tx: string)
    requires Pattern(p) && Pattern(q) && Word(tx) && (p == q || NoSite(rest, p, tx))
    ensures NoSite(Threaded(rest, q, tx), p, tx)
    decreases |rest|, 1
  {
    hide Leads, HasAt, DropBlanks, Pattern, Thread;
    PatternShape(q);
    if Leads(rest, tx) {
      PassLeavesNoSite(rest, p, q, tx);
    } else {
      if NoSite(rest, p, tx) {
        var b := DropSplit(rest);
        NoSiteTail(b, DropBlanks(rest), p, tx);
      }
      PassLeavesNoSite(DropBlanks(rest), p, q, tx);
      HandleHasNoSite(tx, Thread(DropBlanks(rest), q, tx), p);
    }
  }

  lemma HandleHasNoSite(tx: string, y: string, p: string)
    requires Pattern(p) && Word(tx) && NoSite(y, p, tx)
    ensures NoSite(" " + tx + ", " + y, p, tx)
  {
    hide Leads, HasAt, Pattern;
    var w := " " + tx + ", ";
    forall h: nat ensures !Site(w + y, p, tx, h) {
      if h < |w| {
        NoStart(w, y, p, h);
      } else {
        SiteTail(w, y, p, tx, h);
      }
    }
  }

  lemma {:induction false} NothingToThread(t: string, p: string, tx: string)
    requires Pattern(p) && NoSite(t, p, tx)
    ensures Thread(t, p, tx) == t
    decreases |t|
  {
    hide Leads, HasAt, Pattern;
    PatternShape(p);
    IndexFirst(t, 0, p);
    match IndexFrom(t, 0, p)
    case None =>
    case Some(k) =>
      var pre, rest := t[..k + |p|], t[k + |p|..];
      assert t == pre + rest;
      NoSiteHere(t, p, tx, k);
      NoSiteTail(pre, rest, p, tx);
      NothingToThread(rest, p, tx);
  }

  /** Threading a threaded text changes nothing. */
  lemma ThreadIdempotent(t: string, p: string, tx: string)
    requires Pattern(p) && Word(tx)
    ensures Thread(Thread(t, p, tx), p, tx) == Thread(t, p, tx)
  {
    PatternShape(p);
    PassLeavesNoSite(t, p, p, tx);
    NothingToThread(Thread(t, p, tx), p, tx);
  }

  lemma {:induction false} AllPassesLeaveNoSite(t: string, tcs: seq<TxCall>, i: nat, tx: string)
    requires i < |tcs| && forall j :: 0 <= j < |tcs| ==> Wordy(tcs[j]) && tcs[j].tx == tx
    ensures NoSite(ThreadAll(t, tcs), Head(tcs[i]), tx)
  {
    hide Pattern, Wordy, Head, NoSite;
    var n := |tcs| - 1;
    HeadIsPattern(tcs[i]);
    HeadIsPattern(tcs[n]);
    WordTx(tcs[n]);
    if i < n {
      AllPassesLeaveNoSite(t, tcs[..n], i, tx);
    }
    PassLeavesNoSite(ThreadAll(t, tcs[..n]), Head(tcs[i]), Head(tcs[n]), tx);
  }

  lemma {:induction false} AllThreaded(t: string, tcs: seq<TxCall>, tx: string)
    requires forall j :: 0 <= j < |tcs| ==> Wordy(tcs[j]) && tcs[j].tx == tx && NoSite(t, Head(tcs[j]), tx)
    ensures ThreadAll(t, tcs) == t
  {
    hide Pattern, Wordy, Head, NoSite;
    if tcs != [] {
      var n := |tcs| - 1;
      AllThreaded(t, tcs[..n], tx);
      HeadIsPattern(tcs[n]);
      NothingToThread(t, Head(tcs[n]), tx);
    }
  }

  /** Threading all calls again, in any order and any number of them, changes nothing. */
  lemma ThreadAllIdempotent(t: string, tcs: seq<TxCall>, again: seq<TxCall>, tx: string)
    requires forall j :: 0 <= j < |tcs| ==> Wordy(tcs[j]) && tcs[j].tx == tx
    requires forall tc :: tc in again ==> tc in tcs
    ensures ThreadAll(ThreadAll(t, tcs), again) == ThreadAll(t, tcs)
  {
    hide Pattern, Wordy, Head, NoSite;
    forall j | 0 <= j < |again| ensures Wordy(again[j]) && again[j].tx == tx && NoSite(ThreadAll(t, tcs), Head(again[j]), tx) {
      assert again[j] in again;
      var i :| 0 <= i < |tcs| && tcs[i] == again[j];
      AllPassesLeaveNoSite(t, tcs, i, tx);
    }
    AllThreaded(ThreadAll(t, tcs), again, tx);
  }

  // ---------------------------------------------------------------- the wrapper

  const OPENING := "ExecTransaction("

  /** The receiver without its closing dot. */
  function DropDot(receiver: string): string {
    if receiver != "" && receiver[|receiver| - 1] == '.' then receiver[..|receiver| - 1] else receiver
  }

  /** A call with the defaults the repair fills in. */
  function TxOf(c: DBCall, receiver: string): TxCall {
    TxCall(if c.receiver == "" then DropDot(receiver) else c.receiver, c.name,
           if c.ctxName == "" then "c" else c.ctxName, c.tx)
  }

  /** The tx calls of a unit. */
  function TxCalls(calls: seq<DBCall>, receiver: string): seq<TxCall> {
    if calls == [] then []
    else (if calls[0].tx == "" then [] else [TxOf(calls[0], receiver)]) + TxCalls(calls[1..], receiver)
  }

  function CtxCount(tcs: seq<TxCall>, ctx: string): nat {
    if tcs == [] then 0 else (if tcs[0].ctx == ctx then 1 else 0) + CtxCount(tcs[1..], ctx)
  }

  predicate ByName(a: TxCall, b: TxCall) {
    StringLess(a.name, b.name)
  }

  /** Call `i` has the context, and every context used before it is used by fewer calls. */
  predicate FirstWithMost(tcs: seq<TxCall>, i: int, ctx: string) {
    0 <= i < |tcs| && tcs[i].ctx == ctx && forall j :: 0 <= j < i ==> CtxCount(tcs, tcs[j].ctx) < CtxCount(tcs, ctx)
  }

  /** The context the wrapper runs in: the one most calls use, the first of those in call order. */
  method WrapperContext(tcs: seq<TxCall>) returns (ctx: string)
    requires tcs != []
    ensures exists i :: FirstWithMost(tcs, i, ctx)
    ensures forall i :: 0 <= i < |tcs| ==> CtxCount(tcs, tcs[i].ctx) <= CtxCount(tcs, ctx)
  {
    ctx := tcs[0].ctx;
    assert FirstWithMost(tcs, 0, ctx);
    var best := 0;
    var seen: set<string> := {};
    for i := 0 to |tcs|
      invariant best == 0 ==> i == 0 && ctx == tcs[0].ctx
      invariant best > 0 ==> best == CtxCount(tcs, ctx)
      invariant exists j :: FirstWithMost(tcs, j, ctx)
      invariant forall j :: 0 <= j < i ==> tcs[j].ctx in seen
      invariant forall c :: c in seen ==> CtxCount(tcs, c) <= best
    {
      if tcs[i].ctx !in seen {
        seen := seen + {tcs[i].ctx};
        var n := 0;
        for j := |tcs| downto 0
          invariant n == CtxCount(tcs[j..], tcs[i].ctx)
        {
          assert tcs[j..][1..] == tcs[j + 1..];
          if tcs[j].ctx == tcs[i].ctx {
            n := n + 1;
          }
        }
        assert tcs[0..] == tcs;
        CountsItself(tcs, i);
        if n > best {
          best, ctx := n, tcs[i].ctx;
          assert FirstWithMost(tcs, i, ctx);
        }
      }
    }
  }

  lemma {:induction false} CountsItself(tcs: seq<TxCall>, i: nat)
    requires i < |tcs|
    ensures CtxCount(tcs, tcs[i].ctx) > 0
  {
    if i > 0 {
      CountsItself(tcs[1..], i - 1);
    }
  }

  const DATABASE := ".GetDB(), "
  const FUNC := "func(tx *sqlx.Tx) error {"

  /** The line that opens the transaction. */
  function OpeningLine(ctx: string, recv: string): string {
    "if err := utils." + OPENING + ctx + ", " + recv + DATABASE + FUNC
  }

  const CLOSE_A := "}); err != nil {\n"
  const CLOSE_B := "\treturn nil, err\n"
  const CLOSE_C := "}\nreturn data, nil"
  const CLOSING := CLOSE_A + CLOSE_B + CLOSE_C

  /** The wrapped body as text. */
  function WrapperText(ctx: string, recv: string, cls: seq<string>): string {
    OpeningLine(ctx, recv) + "\n" + (JoinLines(cls) + "\n" + CLOSING)
  }

  // ---------------------------------------------------------------- the body's own handle

  /** White space as the regular expressions take it. */
  predicate IsReSpace(ch: char) {
    ch == ' ' || ch == '\t' || ch == '\n' || ch == '\r' || ch == '\U{0C}'
  }

  function SkipSpace(s: string, i: nat): (j: nat)
    requires i <= |s|
    ensures i <= j <= |s|
    decreases |s| - i
  {
    if i < |s| && IsReSpace(s[i]) then SkipSpace(s, i + 1) else i
  }

  /** A line start followed by white space, `var`, white space and the word `tx`. */
  predicate DeclaresVar(body: string) {
    exists i :: 0 <= i <= |body| && (i == 0 || body[i - 1] == '\n') && VarAt(body, SkipSpace(body, i))
  }

  predicate VarAt(body: string, j: nat) {
    && HasAt(body, j, "var")
    && var k := SkipSpace(body, j + 3);
       k > j + 3 && HasAt(body, k, "tx") && (k + 2 == |body| || !IsWordChar(body[k + 2]))
  }

  predicate StartsIdent(ch: char) {
    IsWordChar(ch) && !IsDigit(ch)
  }

  function IdentEnd(s: string, i: nat): (e: nat)
    requires i <= |s|
    ensures i <= e <= |s| && (e < |s| ==> !IsWordChar(s[e])) && forall j :: i <= j < e ==> IsWordChar(s[j])
    decreases |s| - i
  {
    if i < |s| && IsWordChar(s[i]) then IdentEnd(s, i + 1) else i
  }

  /** The identifiers of a text from position `i` on. */
  function Idents(s: string, i: nat): seq<string>
    decreases |s| - i
  {
    if i >= |s| then []
    else if StartsIdent(s[i]) then [s[i..IdentEnd(s, i)]] + Idents(s, IdentEnd(s, i))
    else Idents(s, i + 1)
  }

  /** The text before the first `:=` of a line names `tx`. */
  predicate AssignsTx(line: string) {
    match IndexFrom(line, 0, ":=")
    case None => false
    case Some(i) => "tx" in Idents(line[..i], 0)
  }

  predicate DeclaresTx(body: string) {
    DeclaresVar(body) || exists k :: 0 <= k < |SplitLines(body)| && AssignsTx(SplitLines(body)[k])
  }

  method HasTxLocal(body: string) returns (has: bool)
    ensures has == DeclaresTx(body)
  {
    if DeclaresVar(body) {
      return true;
    }
    var lines := SplitLines(body);
    for k := 0 to |lines|
      invariant forall j :: 0 <= j < k ==> !AssignsTx(lines[j])
    {
      var at := IndexFrom(lines[k], 0, ":=");
      if at.Some? {
        var names := Idents(lines[k][..at.value], 0);
        for m := 0 to |names|
          invariant forall j :: 0 <= j < m ==> names[j] != "tx"
        {
          if names[m] == "tx" {
            assert AssignsTx(lines[k]);
            return true;
          }
        }
      }
    }
    return false;
  }

  /** From `d` to `h` there are digits only, and no word character before them. */
  predicate DigitsBetween(s: string, d: nat, h: nat) {
    d <= h <= |s| && (d == 0 || !IsWordChar(s[d - 1])) && forall j :: d <= j < h ==> IsDigit(s[j])
  }

  /** A word can begin here: no other reaches up to it. */
  ghost predicate WordStart(s: string, h: nat) {
    exists d: nat :: DigitsBetween(s, d, h)
  }

  /** The word `x` stands at `h`, ended by a character that no word has, and begun by one or by digits alone. */
  ghost predicate WordAt(s: string, x: string, h: nat) {
    HasAt(s, h, x) && (h + |x| == |s| || !IsWordChar(s[h + |x|])) && WordStart(s, h)
  }

  lemma WordAtOne(s: string, x: string, h: nat)
    requires WordAt(s, x, h) && NameLike(x) && StartsIdent(x[0])
    ensures h < |s| && StartsIdent(s[h]) && IdentEnd(s, h) == h + |x| && s[h..h + |x|] == x
  {
    var y := s[h..h + |x|];
    assert forall j :: 0 <= j < |x| ==> y[j] == s[h + j];
    assert s[h] == x[0];
    forall j | h <= j < h + |x| ensures IsWordChar(s[j]) {
      assert s[j] == y[j - h];
    }
    IdentEndPast(s, h, |x|);
  }

  lemma IdentEndPast(s: string, i: nat, n: nat)
    requires i + n <= |s| && forall j :: i <= j < i + n ==> IsWordChar(s[j])
    ensures IdentEnd(s, i) >= i + n
  {
  }

  lemma NextStart(s: string, i: nat)
    requires WordStart(s, i) && i < |s| && !StartsIdent(s[i])
    ensures WordStart(s, i + 1)
  {
    var d: nat :| DigitsBetween(s, d, i);
    if IsDigit(s[i]) {
      assert DigitsBetween(s, d, i + 1);
    } else {
      assert DigitsBetween(s, i + 1, i + 1);
    }
  }

  lemma WordBehind(s: string, d: nat, h: nat, i: nat)
    requires i < h <= |s| && IsWordChar(s[i]) && !IsDigit(s[i]) && forall j :: i <= j < h ==> IsWordChar(s[j])
    ensures !DigitsBetween(s, d, h)
  {
    var before := d - 1;
    assert i <= before < h ==> IsWordChar(s[before]);
  }

  /** No word begins inside another. */
  lemma NotInsideWord(s: string, h: nat, i: nat)
    requires i < h <= |s| && i < |s| && StartsIdent(s[i]) && h <= IdentEnd(s, i)
    ensures !WordStart(s, h)
  {
    forall d: nat ensures !DigitsBetween(s, d, h) {
      WordBehind(s, d, h, i);
    }
  }

  /** An identifier is found exactly where it stands as a word. */
  lemma {:induction false} IdentsAreWords(s: string, x: string, i: nat)
    requires NameLike(x) && StartsIdent(x[0]) && WordStart(s, i)
    ensures x in Idents(s, i) <==> exists h :: h >= i && WordAt(s, x, h)
    decreases |s| - i
  {
    hide WordAt, WordStart, StartsIdent, NameLike;
    forall h | h >= i && WordAt(s, x, h) ensures h < |s| && StartsIdent(s[h]) {
      WordAtOne(s, x, h);
    }
    if i < |s| && !StartsIdent(s[i]) {
      NextStart(s, i);
      IdentsAreWords(s, x, i + 1);
    } else if i < |s| {
      FirstIdent(s, x, i);
      var e := IdentEnd(s, i);
      if e < |s| {
        AfterWord(s, e);
        IdentsAreWords(s, x, e + 1);
      }
    }
  }

  lemma AfterWord(s: string, e: nat)
    requires e < |s| && !IsWordChar(s[e])
    ensures WordStart(s, e + 1) && Idents(s, e) == Idents(s, e + 1)
  {
    assert DigitsBetween(s, e + 1, e + 1);
  }

  lemma FirstIdent(s: string, x: string, i: nat)
    requires NameLike(x) && StartsIdent(x[0]) && WordStart(s, i) && i < |s| && StartsIdent(s[i])
    ensures i < IdentEnd(s, i) && (x == s[i..IdentEnd(s, i)] <==> WordAt(s, x, i))
    ensures forall h :: i < h <= IdentEnd(s, i) ==> !WordAt(s, x, h)
  {
    if WordAt(s, x, i) {
      WordAtOne(s, x, i);
    }
    forall h | i < h <= IdentEnd(s, i) ensures !WordAt(s, x, h) {
      NotInsideWord(s, h, i);
    }
  }

  /** The left side of an assignment names the handle exactly when it stands there as a word. */
  lemma AssignsTxIff(line: string)
    ensures AssignsTx(line) <==>
            match IndexFrom(line, 0, ":=")
            case None => false
            case Some(i) => exists h :: WordAt(line[..i], "tx", h)
  {
    match IndexFrom(line, 0, ":=")
    case None =>
    case Some(i) =>
      assert DigitsBetween(line[..i], 0, 0);
      IdentsAreWords(line[..i], "tx", 0);
  }

  // ---------------------------------------------------------------- the repair

  method ThreadCalls(body: string, tcs: seq<TxCall>) returns (rewritten: string)
    ensures rewritten == ThreadAll(body, tcs)
  {
    rewritten := body;
    for i := 0 to |tcs|
      invariant rewritten == ThreadAll(body, tcs[..i])
    {
      assert tcs[..i + 1][..i] == tcs[..i];
      rewritten := Thread(rewritten, Head(tcs[i]), tcs[i].tx);
    }
    assert tcs[..|tcs|] == tcs;
  }

  /** The text of a repair: the calls in name order, the most used context, and the wrapper around the threaded
      and rewritten body. */
  ghost predicate RepairOf(body: string, calls: seq<DBCall>, receiver: string, wrapped: string, tcs: seq<TxCall>, ctx: string) {
    && multiset(tcs) == multiset(TxCalls(calls, receiver)) && Ordered(tcs, ByName) && tcs != []
    && (exists i :: FirstWithMost(tcs, i, ctx))
    && (forall i :: 0 <= i < |tcs| ==> CtxCount(tcs, tcs[i].ctx) <= CtxCount(tcs, ctx))
    && wrapped == WrapperText(ctx, tcs[0].recv, ClosureLines(SplitLines(ThreadAll(body, tcs))))
  }

  /** The repair. It declines when the wrapper is partly there, when no call takes a handle, or when the closure
      parameter would hide a handle of the body's own. */
  method WrapTxBody(body: string, calls: seq<DBCall>, receiver: string) returns (wrapped: string, ok: bool)
    ensures ok <==> !Contains(body, OPENING) && TxCalls(calls, receiver) != [] && !DeclaresTx(body)
    ensures ok ==> exists tcs, ctx :: RepairOf(body, calls, receiver, wrapped, tcs, ctx)
    ensures !ok ==> wrapped == ""
  {
    wrapped, ok := "", false;
    IndexFirst(body, 0, OPENING);
    if IndexFrom(body, 0, OPENING).Some? {
      return;
    }
    var found := TxCalls(calls, receiver);
    if found == [] {
      return;
    }
    ByNameAsymmetric();
    var sorted := SortSlice(found, ByName);
    PermutedMembers(sorted, found);
    var own := HasTxLocal(body);
    if own {
      return;
    }
    var ctx := WrapperContext(sorted);
    var rewritten := ThreadCalls(body, sorted);
    var cls := WrapLines(SplitLines(rewritten));
    wrapped, ok := WrapperText(ctx, sorted[0].recv, cls), true;
    assert RepairOf(body, calls, receiver, wrapped, sorted, ctx);
  }

  /** When the threaded body is the print of some statements, the repair is the print of their closure inside the
      wrapper, and so behaves as the wrapped method does: the statements' error, committed exactly when it is nil. */
  lemma RepairedPreserves<S(!new), V, E>(body: string, calls: seq<DBCall>, receiver: string, wrapped: string,
                                         tcs: seq<TxCall>, ctx: string, stmts: seq<Stmt>,
                                         lang: Language<S, V, E>, s: S, fuel: nat)
    requires RepairOf(body, calls, receiver, wrapped, tcs, ctx)
    requires SplitLines(ThreadAll(body, tcs)) == Print(stmts) && Laid(stmts) && Named(lang)
    ensures wrapped == WrapperText(ctx, tcs[0].recv, Print(Closure(stmts)))
    ensures Preserved(lang, stmts, s, fuel)
  {
    ClosurePrinted(stmts);
    WrapPreserves(lang, stmts, s, fuel);
  }

  lemma ByNameAsymmetric()
    ensures Asymmetric(ByName)
  {
    forall a: TxCall, b: TxCall ensures !(ByName(a, b) && ByName(b, a)) {
      StringLessAsymmetric(a.name, b.name);
    }
  }

  // ---------------------------------------------------------------- the gate

  /** What the gate searches for: the call as it is written once threaded. */
  function GateText(c: DBCall): string {
    c.name + "(" + c.ctxName + ", " + c.tx
  }

  /** The gate looks at the last tx call of every name, in the order the map yields the calls. */
  predicate Judged(calls: seq<DBCall>, i: int) {
    && 0 <= i < |calls| && calls[i].tx != ""
    && forall j :: i < j < |calls| && calls[j].tx != "" ==> calls[j].name != calls[i].name
  }

  ghost predicate GatePasses(body: string, calls: seq<DBCall>) {
    (exists i :: Judged(calls, i)) ==>
      Contains(body, OPENING) && forall i :: Judged(calls, i) ==> Contains(body, GateText(calls[i]))
  }

  datatype GateError = NoOpening | NoCall(name: string)

  /** Index of the last tx call of each name. */
  ghost predicate LastOfName(calls: seq<DBCall>, n: nat, last: map<string, nat>) {
    && n <= |calls|
    && (forall name :: name in last ==> last[name] < n && calls[last[name]].name == name)
    && (forall i :: Judged(calls[..n], i) <==> 0 <= i < n && calls[i].name in last && last[calls[i].name] == i)
  }

  lemma LastNext(calls: seq<DBCall>, n: nat, last: map<string, nat>)
    requires n < |calls| && LastOfName(calls, n, last)
    ensures LastOfName(calls, n + 1, if calls[n].tx == "" then last else last[calls[n].name := n])
  {
    var last' := if calls[n].tx == "" then last else last[calls[n].name := n];
    forall i ensures Judged(calls[..n + 1], i) <==> 0 <= i < n + 1 && calls[i].name in last' && last'[calls[i].name] == i {
      if 0 <= i < n {
        assert Judged(calls[..n], i) <==> calls[i].name in last && last[calls[i].name] == i;
        assert Judged(calls[..n + 1], i) <==> Judged(calls[..n], i) && (calls[n].tx == "" || calls[n].name != calls[i].name) by {
          if Judged(calls[..n + 1], i) {
            assert forall j :: i < j < n ==> calls[..n][j] == calls[..n + 1][j];
            assert calls[..n + 1][n] == calls[n];
          }
        }
      }
    }
  }

  method KeysInOrder(keys: set<string>) returns (names: seq<string>)
    ensures Ordered(names, StringLess) && forall x :: x in names <==> x in keys
  {
    var rest := keys;
    var found: seq<string> := [];
    while rest != {}
      invariant rest <= keys && forall x :: x in found <==> x in keys && x !in rest
      decreases |rest|
    {
      var x :| x in rest;
      rest, found := rest - {x}, found + [x];
    }
    assert Asymmetric(StringLess) by {
      forall a, b ensures !(StringLess(a, b) && StringLess(b, a)) {
        StringLessAsymmetric(a, b);
      }
    }
    names := SortSlice(found, StringLess);
    PermutedMembers(names, found);
  }

  /** Index of the last tx call of every name. */
  method LastTxCalls(calls: seq<DBCall>) returns (last: map<string, nat>)
    ensures forall name :: name in last ==> last[name] < |calls| && Judged(calls, last[name]) && calls[last[name]].name == name
    ensures forall i :: Judged(calls, i) ==> calls[i].name in last && last[calls[i].name] == i
  {
    last := map[];
    for n := 0 to |calls|
      invariant LastOfName(calls, n, last)
    {
      LastNext(calls, n, last);
      if calls[n].tx != "" {
        last := last[calls[n].name := n];
      }
    }
    assert calls[..|calls|] == calls;
  }

  method TxGateErrs(body: string, calls: seq<DBCall>) returns (errs: seq<GateError>)
    ensures errs == [] <==> GatePasses(body, calls)
    ensures NoOpening in errs <==> (exists i :: Judged(calls, i)) && !Contains(body, OPENING)
    ensures forall i :: Judged(calls, i) ==> (NoCall(calls[i].name) in errs <==> !Contains(body, GateText(calls[i])))
    ensures forall name :: NoCall(name) in errs ==> exists i :: Judged(calls, i) && calls[i].name == name
  {
    hide Contains, GateText;
    var last := LastTxCalls(calls);
    errs := [];
    if last.Keys == {} {
      return;
    }
    var names := KeysInOrder(last.Keys);
    if !Contains(body, OPENING) {
      errs := [NoOpening];
    }
    for k := 0 to |names|
      invariant forall e :: e in errs <==>
                  (e == NoOpening && !Contains(body, OPENING)) || exists j :: 0 <= j < k && Missing(body, calls, last, names[j], e)
    {
      var c := calls[last[names[k]]];
      if !Contains(body, GateText(c)) {
        errs := errs + [NoCall(names[k])];
      }
    }
    GateVerdict(body, calls, last, names, errs);
  }

  /** The error for a name whose call the text does not have. */
  ghost predicate Missing(body: string, calls: seq<DBCall>, last: map<string, nat>, name: string, e: GateError) {
    e == NoCall(name) && name in last && last[name] < |calls| && !Contains(body, GateText(calls[last[name]]))
  }

  lemma GateVerdict(body: string, calls: seq<DBCall>, last: map<string, nat>, names: seq<string>, errs: seq<GateError>)
    requires last.Keys != {} && forall name :: name in names <==> name in last
    requires forall name :: name in last ==> last[name] < |calls| && Judged(calls, last[name]) && calls[last[name]].name == name
    requires forall i :: Judged(calls, i) ==> calls[i].name in last && last[calls[i].name] == i
    requires forall e :: e in errs <==>
               (e == NoOpening && !Contains(body, OPENING)) || exists j :: 0 <= j < |names| && Missing(body, calls, last, names[j], e)
    ensures exists i :: Judged(calls, i)
    ensures NoOpening in errs <==> !Contains(body, OPENING)
    ensures forall i :: Judged(calls, i) ==> (NoCall(calls[i].name) in errs <==> !Contains(body, GateText(calls[i])))
    ensures forall name :: NoCall(name) in errs ==> name in last
    ensures errs == [] <==> GatePasses(body, calls)
  {
    hide Contains, GateText;
    var some :| some in last;
    assert Judged(calls, last[some]);
    forall i | Judged(calls, i) ensures NoCall(calls[i].name) in errs <==> !Contains(body, GateText(calls[i])) {
      if !Contains(body, GateText(calls[i])) {
        var j :| 0 <= j < |names| && names[j] == calls[i].name;
        assert Missing(body, calls, last, names[j], NoCall(calls[i].name));
      }
    }
    if errs != [] {
      assert errs[0] in errs;
      if errs[0] != NoOpening {
        var j :| 0 <= j < |names| && Missing(body, calls, last, names[j], errs[0]);
        assert Judged(calls, last[names[j]]);
      }
    }
  }

  /** A match of three pieces matches the middle one. */
  lemma InsideMatch(s: string, i: nat, a: string, g: string, b: string)
    requires HasAt(s, i, a + (g + b))
    ensures HasAt(s, i + |a|, g)
  {
    var n := a + (g + b);
    assert forall k :: 0 <= k < |n| ==> s[i + k] == n[k];
    forall k | 0 <= k < |g| ensures s[i + |a| + k] == g[k] {
      assert n[|a| + k] == g[k];
      assert s[i + (|a| + k)] == n[|a| + k];
    }
    assert s[i + |a|..i + |a| + |g|] == g;
  }

  lemma {:induction false} LineWith(lines: seq<string>, x: string) returns (k: nat)
    requires lines != [] && x != "" && OneLine(x) && Contains(JoinLines(lines), x)
    ensures k < |lines| && Contains(lines[k], x)
  {
    if |lines| == 1 {
      k := 0;
    } else {
      var s, rest := JoinLines(lines), JoinLines(lines[1..]);
      var i :| 0 <= i <= |s| && HasAt(s, i, x);
      assert s == (lines[0] + "\n") + rest && s == lines[0] + ("\n" + rest);
      if i + |x| <= |lines[0]| {
        HasAtConcat(lines[0], "\n" + rest, i, x);
        HasAtContains(lines[0], i, x);
        k := 0;
      } else {
        assert s[|lines[0]|] == '\n';
        if i <= |lines[0]| {
          HasAtChar(s, i, x, |lines[0]| - i);
        }
        HasAtConcat(lines[0] + "\n", rest, i, x);
        HasAtContains(rest, i - |lines[0]| - 1, x);
        k := LineWith(lines[1..], x);
        k := k + 1;
      }
    }
  }

  lemma {:induction false} LineInJoin(lines: seq<string>, k: nat, x: string)
    requires k < |lines| && Contains(lines[k], x)
    ensures Contains(JoinLines(lines), x)
  {
    if |lines| > 1 {
      if k == 0 {
        ContainsHead(lines[0], "\n" + JoinLines(lines[1..]), x);
        assert lines[0] + ("\n" + JoinLines(lines[1..])) == JoinLines(lines);
      } else {
        LineInJoin(lines[1..], k - 1, x);
        ContainsTail(lines[0] + "\n", JoinLines(lines[1..]), x);
      }
    }
  }

  lemma ContainsInLines(lines: seq<string>, x: string)
    requires lines != [] && x != "" && OneLine(x)
    ensures Contains(JoinLines(lines), x) <==> exists k :: 0 <= k < |lines| && Contains(lines[k], x)
  {
    hide Contains, OneLine, JoinLines;
    if Contains(JoinLines(lines), x) {
      var k := LineWith(lines, x);
    }
    forall k | 0 <= k < |lines| && Contains(lines[k], x) ensures Contains(JoinLines(lines), x) {
      LineInJoin(lines, k, x);
    }
  }

  lemma ContainsJoined(a: string, b: string, x: string)
    requires x != "" && OneLine(x)
    ensures Contains(a + "\n" + b, x) <==> Contains(a, x) || Contains(b, x)
  {
    assert JoinLines([a, b]) == a + "\n" + b by {
      assert [a, b][1..] == [b];
    }
    ContainsInLines([a, b], x);
    hide Contains, OneLine, JoinLines;
    assert [a, b][0] == a && [a, b][1] == b;
  }

  /** Text on one line whose first parenthesis has no white space before it. */
  ghost predicate CallLike(x: string) {
    OneLine(x) && exists m :: 0 <= m < |x| && x[m] == '(' && forall j :: 0 <= j < m ==> !IsSpace(x[j])
  }

  lemma NoParenNoCall(s: string, x: string)
    requires CallLike(x) && forall i :: 0 <= i < |s| ==> s[i] != '('
    ensures !Contains(s, x)
  {
    var m :| 0 <= m < |x| && x[m] == '(';
    forall i | 0 <= i <= |s| ensures !HasAt(s, i, x) {
      HasAtChar(s, i, x, m);
    }
  }

  /** A call text cannot begin in words that hold no parenthesis and end in white space. */
  lemma BehindWords(w: string, v: string, x: string)
    requires CallLike(x) && w != "" && IsSpace(w[|w| - 1]) && forall i :: 0 <= i < |w| ==> w[i] != '('
    ensures Contains(w + v, x) <==> Contains(v, x)
  {
    hide Contains, CallLike;
    if Contains(v, x) {
      ContainsTail(w, v, x);
    }
    if Contains(w + v, x) {
      var i := ContainsAt(w + v, x);
      StartsBehind(w, v, x, i);
      HasAtConcat(w, v, i, x);
      HasAtContains(v, i - |w|, x);
    }
  }

  lemma ContainsAt(s: string, x: string) returns (i: nat)
    requires Contains(s, x)
    ensures i <= |s| && HasAt(s, i, x)
  {
    i :| 0 <= i <= |s| && HasAt(s, i, x);
  }

  lemma StartsBehind(w: string, v: string, x: string, i: nat)
    requires CallLike(x) && w != "" && IsSpace(w[|w| - 1]) && (forall i :: 0 <= i < |w| ==> w[i] != '(')
    requires HasAt(w + v, i, x)
    ensures i >= |w|
  {
    var m :| 0 <= m < |x| && x[m] == '(' && forall j :: 0 <= j < m ==> !IsSpace(x[j]);
    hide HasAt, CallLike;
    HasAtChar(w + v, i, x, m);
    var last: int := |w| - 1 - i;
    if 0 <= last < |x| {
      HasAtChar(w + v, i, x, last);
    }
  }

  // ---------------------------------------------------------------- what the gate finds in a repaired body

  /** What the closure keeps of a line: all of it, or of a return its values after the first. */
  function KeptPart(line: string): string {
    var t := Trim(line);
    if !IsReturnLine(t) then line
    else
      var parts := Split(ReturnRest(t));
      if ReturnRest(t) == "" then "" else if |parts| == 1 then line else Trim(JoinComma(parts[1..]))
  }

  lemma AfterFirstComma(rest: string)
    requires |Split(rest)| > 1
    ensures |Split(rest)[0]| < |rest| && rest[|Split(rest)[0]| + 1..] == JoinComma(Split(rest)[1..])
  {
    var parts := Split(rest);
    JoinSplit(rest);
    assert rest == (parts[0] + ",") + JoinComma(parts[1..]);
  }

  lemma NoParenInIndent(line: string)
    ensures var w := Leading(line) + "return "; (forall i :: 0 <= i < |w| ==> w[i] != '(') && IsSpace(w[|w| - 1])
  {
    var w := Leading(line) + "return ";
    forall i | 0 <= i < |w| ensures w[i] != '(' {
      assert i < |Leading(line)| ==> IsBlank(Leading(line)[i]);
    }
  }

  /** A rewritten line holds a call exactly when the part it keeps does. */
  lemma RewriteKeepsCall(line: string, x: string)
    requires CallLike(x)
    ensures Contains(RewriteClosureReturn(line), x) <==> Contains(KeptPart(line), x)
  {
    hide Contains, CallLike, Trim, IsReturnLine, Split, JoinComma, Leading;
    var t := Trim(line);
    if IsReturnLine(t) {
      var rest := ReturnRest(t);
      NoParenInIndent(line);
      if rest == "" {
        assert Leading(line) + "return " + "err" == Leading(line) + "return err";
        BehindWords(Leading(line) + "return ", "err", x);
        NoParenNoCall("err", x);
        NoParenNoCall("", x);
      } else if |Split(rest)| > 1 {
        AfterFirstComma(rest);
        BehindWords(Leading(line) + "return ", Trim(JoinComma(Split(rest)[1..])), x);
      }
    }
  }

  /** Some line of the text keeps the call. */
  ghost predicate KeepsCall(t: string, x: string) {
    exists k :: 0 <= k < |SplitLines(t)| && Contains(KeptPart(SplitLines(t)[k]), x)
  }

  lemma ClosureKeeps(t: string, x: string)
    requires CallLike(x)
    ensures Contains(JoinLines(ClosureLines(SplitLines(t))), x) <==> KeepsCall(t, x)
  {
    hide Contains, RewriteClosureReturn, KeptPart, IsReturnLine, LastCode, SplitLines, JoinLines;
    var lines := SplitLines(t);
    var cls := ClosureLines(lines);
    CallLikeText(x);
    ContainsInLines(cls, x);
    forall k | 0 <= k < |lines| ensures Contains(cls[k], x) <==> Contains(KeptPart(lines[k]), x) {
      RewriteKeepsCall(lines[k], x);
    }
    NoParenNoCall("return nil", x);
  }

  lemma CallLikeText(x: string)
    requires CallLike(x)
    ensures OneLine(x) && x != ""
  {
  }

  /** The repaired text holds a call exactly when the threaded body keeps it or the opening line has it. */
  lemma WrapperKeeps(t: string, ctx: string, recv: string, x: string)
    requires CallLike(x)
    ensures Contains(WrapperText(ctx, recv, ClosureLines(SplitLines(t))), x) <==>
            KeepsCall(t, x) || Contains(OpeningLine(ctx, recv), x)
  {
    ClosingHasNoParen();
    hide Contains, ClosureLines, SplitLines, JoinLines, KeepsCall, OpeningLine, CallLike;
    var inner := JoinLines(ClosureLines(SplitLines(t)));
    CallLikeText(x);
    ClosureKeeps(t, x);
    ContainsJoined(OpeningLine(ctx, recv), inner + "\n" + CLOSING, x);
    ContainsJoined(inner, CLOSING, x);
    NoParenNoCall(CLOSING, x);
  }

  lemma ClosingHasNoParen()
    ensures forall i :: 0 <= i < |CLOSING| ==> CLOSING[i] != '('
  {
    assert forall i :: 0 <= i < |CLOSE_A| ==> CLOSE_A[i] != '(';
    assert forall i :: 0 <= i < |CLOSE_B| ==> CLOSE_B[i] != '(';
    assert forall i :: 0 <= i < |CLOSE_C| ==> CLOSE_C[i] != '(';
  }

  /** A call name without white space, a context and a handle on one line. */
  ghost predicate Spelled(c: DBCall) {
    (forall j :: 0 <= j < |c.name| ==> !IsSpace(c.name[j])) && OneLine(c.ctxName) && OneLine(c.tx)
  }

  lemma GateTextCallLike(c: DBCall)
    requires Spelled(c)
    ensures CallLike(GateText(c))
  {
    var x := GateText(c);
    assert x == c.name + ("(" + c.ctxName + ", " + c.tx);
    assert x[|c.name|] == '(';
    forall j | 0 <= j < |x| ensures x[j] != '\n' {
    }
  }

  lemma WrapperOpens(ctx: string, recv: string, cls: seq<string>)
    ensures Contains(WrapperText(ctx, recv, cls), OPENING)
  {
    WrapperSplit(OpeningLine(ctx, recv), JoinLines(cls) + "\n" + CLOSING);
    OpeningOpens("if err := utils.", OPENING, ctx + ", " + recv + DATABASE + FUNC, OpeningLine(ctx, recv),
                 "\n" + (JoinLines(cls) + "\n" + CLOSING));
  }

  lemma WrapperSplit(line: string, inner: string)
    ensures line + "\n" + inner == line + ("\n" + inner)
  {
  }

  lemma OpeningOpens(pre: string, x: string, post: string, line: string, rest: string)
    requires line == pre + x + post
    ensures Contains(line + rest, x)
  {
    assert line[|pre|..|pre| + |x|] == x;
    HasAtContains(line, |pre|, x);
    ContainsHead(line, rest, x);
  }

  /** The gate accepts a repaired body exactly when every judged call, spelled with its own context, is in what the
      closure keeps of the threaded lines, or in the wrapper's opening line. */
  lemma GatePassesIff(body: string, calls: seq<DBCall>, receiver: string, wrapped: string, tcs: seq<TxCall>, ctx: string)
    requires RepairOf(body, calls, receiver, wrapped, tcs, ctx)
    requires forall i :: Judged(calls, i) ==> Spelled(calls[i])
    ensures GatePasses(wrapped, calls) <==>
            forall i :: Judged(calls, i) ==>
              KeepsCall(ThreadAll(body, tcs), GateText(calls[i])) || Contains(OpeningLine(ctx, tcs[0].recv), GateText(calls[i]))
  {
    hide Contains, KeepsCall, OpeningLine, WrapperText, Spelled, CallLike, GateText, FirstWithMost;
    WrapperOpens(ctx, tcs[0].recv, ClosureLines(SplitLines(ThreadAll(body, tcs))));
    forall i | Judged(calls, i)
      ensures Contains(wrapped, GateText(calls[i])) <==>
              KeepsCall(ThreadAll(body, tcs), GateText(calls[i])) || Contains(OpeningLine(ctx, tcs[0].recv), GateText(calls[i]))
    {
      GateTextCallLike(calls[i]);
      WrapperKeeps(ThreadAll(body, tcs), ctx, tcs[0].recv, GateText(calls[i]));
    }
  }

  lemma NeedleHasGateText(s: string, c: DBCall, receiver: string)
    requires c.ctxName != "" && Contains(s, Needle(Head(TxOf(c, receiver)), c.tx))
    ensures Contains(s, GateText(c))
  {
    var tc := TxOf(c, receiver);
    var n, g := Needle(Head(tc), c.tx), GateText(c);
    var i :| 0 <= i <= |s| && HasAt(s, i, n);
    var a := tc.recv + ".";
    assert n == a + (g + ",");
    hide Needle, GateText, Head;
    InsideMatch(s, i, a, g, ",");
    HasAtContains(s, i + |a|, g);
  }

  lemma NeedleOneLine(tc: TxCall)
    requires Wordy(tc)
    ensures OneLine(Needle(Head(tc), tc.tx)) && Needle(Head(tc), tc.tx) != ""
  {
  }

  lemma {:induction false} TxCallListed(calls: seq<DBCall>, receiver: string, i: nat)
    requires i < |calls| && calls[i].tx != ""
    ensures TxOf(calls[i], receiver) in TxCalls(calls, receiver)
  {
    if i > 0 {
      TxCallListed(calls[1..], receiver, i - 1);
    }
  }

  /** Every judged call names its context, has a site, open or threaded, and no return drops it. */
  ghost predicate SitesKept(body: string, calls: seq<DBCall>, receiver: string, tcs: seq<TxCall>) {
    forall i :: Judged(calls, i) ==>
      && calls[i].ctxName != "" && Reaches(body, Head(TxOf(calls[i], receiver)), calls[i].tx)
      && ReturnsKeep(ThreadAll(body, tcs), Needle(Head(TxOf(calls[i], receiver)), calls[i].tx))
  }

  /** Lines that hold the text hold it in the part that is kept. */
  ghost predicate ReturnsKeep(t: string, x: string) {
    forall line :: line in SplitLines(t) && Contains(line, x) ==> Contains(KeptPart(line), x)
  }

  lemma SiteSurvives(body: string, c: DBCall, receiver: string, tcs: seq<TxCall>, tx: string)
    requires c.ctxName != "" && TxOf(c, receiver) in tcs && forall j :: 0 <= j < |tcs| ==> Wordy(tcs[j]) && tcs[j].tx == tx
    requires Reaches(body, Head(TxOf(c, receiver)), tx)
    requires ReturnsKeep(ThreadAll(body, tcs), Needle(Head(TxOf(c, receiver)), tx))
    ensures KeepsCall(ThreadAll(body, tcs), GateText(c))
  {
    hide KeptPart, Contains, Head, Wordy, GateText, Reaches, Needle, OneLine;
    var t, n := ThreadAll(body, tcs), Needle(Head(TxOf(c, receiver)), tx);
    ReachesAll(body, tcs, TxOf(c, receiver), tx);
    NeedleOneLine(TxOf(c, receiver));
    JoinSplitLines(t);
    var k := LineWith(SplitLines(t), n);
    assert SplitLines(t)[k] in SplitLines(t);
    NeedleHasGateText(KeptPart(SplitLines(t)[k]), c, receiver);
  }

  /** When all calls share one handle and the sites are kept, the repaired body passes the gate. */
  lemma RepairPassesGate(body: string, calls: seq<DBCall>, receiver: string, wrapped: string, tcs: seq<TxCall>,
                         ctx: string, tx: string)
    requires RepairOf(body, calls, receiver, wrapped, tcs, ctx)
    requires forall i :: Judged(calls, i) ==> Spelled(calls[i])
    requires forall i :: 0 <= i < |tcs| ==> Wordy(tcs[i]) && tcs[i].tx == tx
    requires SitesKept(body, calls, receiver, tcs)
    ensures GatePasses(wrapped, calls)
  {
    hide KeepsCall, Contains, Head, Wordy, GateText, Reaches, Needle, OneLine, ReturnsKeep, OpeningLine, Spelled, GatePasses, FirstWithMost;
    forall i | Judged(calls, i) ensures KeepsCall(ThreadAll(body, tcs), GateText(calls[i])) {
      TxCallListed(calls, receiver, i);
      PermutedMembers(tcs, TxCalls(calls, receiver));
      var j :| 0 <= j < |tcs| && tcs[j] == TxOf(calls[i], receiver);
      assert tcs[j].tx == tx;
      SiteSurvives(body, calls[i], receiver, tcs, tx);
    }
    GatePassesIff(body, calls, receiver, wrapped, tcs, ctx);
  }
}
