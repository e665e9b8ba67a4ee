/** The strip markers as text: what cutting a kept placeholder out of the file's text really does. */
module MarkerText {
  import opened Options
  import opened Text
  import opened ArtifactMerge

  const MARK := "// tuxgo:REJECTED-"

  function BeginMark(name: string): string {
    MARK + ("BEGIN " + name)
  }

  function EndMark(name: string): string {
    MARK + ("END " + name)
  }

  function RejectedBlock(name: string, method_: string): string {
    (BeginMark(name) + "\n") + ((method_ + "\n") + (EndMark(name) + "\n"))
  }

  /** From the first begin marker to the first end marker after it, newline included. */
  function StripRejected(src: string, name: string): (string, bool) {
    match IndexFrom(src, 0, BeginMark(name))
    case None => (src, false)
    case Some(i) =>
      match IndexFrom(src, i, EndMark(name))
      case None => (src, false)
      case Some(e) =>
        var j := e + |EndMark(name)|;
        (src[..i] + src[if j < |src| && src[j] == '\n' then j + 1 else j..], true)
  }

  // ---------------------------------------------------------------- searching in line-wise text

  /** Empty, or ending with a newline: nothing written after it joins its last line. */
  predicate Closed(s: string) {
    s == "" || s[|s| - 1] == '\n'
  }

  ghost predicate Absent(s: string, p: string) {
    forall i :: 0 <= i ==> !HasAt(s, i, p)
  }

  lemma NoCross(a: string, c: string, p: string, i: nat)
    requires Closed(a) && OneLine(p) && HasAt(a + c, i, p)
    ensures i + |p| <= |a| || i >= |a|
  {
    assert p == (a + c)[i..i + |p|];
    assert forall k :: 0 <= k < |p| ==> p[k] == (a + c)[i + k];
    assert a != "" ==> (a + c)[|a| - 1] == '\n';
  }

  lemma InLeft(a: string, c: string, p: string, i: nat)
    requires i + |p| <= |a|
    ensures HasAt(a + c, i, p) <==> HasAt(a, i, p)
  {
    assert (a + c)[i..i + |p|] == a[i..i + |p|];
  }

  lemma InRight(a: string, c: string, p: string, i: nat)
    requires i >= |a|
    ensures HasAt(a + c, i, p) <==> HasAt(c, i - |a|, p)
  {
    if i + |p| <= |a| + |c| {
      assert (a + c)[i..i + |p|] == c[i - |a|..i - |a| + |p|];
    }
  }

  /** A one-line pattern is absent from closed text and what follows when it is absent from both. */
  lemma AbsentConcat(a: string, c: string, p: string)
    requires Closed(a) && OneLine(p) && Absent(a, p) && Absent(c, p)
    ensures Absent(a + c, p)
  {
    forall i | 0 <= i ensures !HasAt(a + c, i, p) {
      if HasAt(a + c, i, p) {
        NoCross(a, c, p, i);
        if i >= |a| {
          InRight(a, c, p, i);
        } else {
          InLeft(a, c, p, i);
        }
      }
    }
  }

  /** The first occurrence in text whose closed head does not hold the pattern. */
  lemma IndexPast(a: string, c: string, p: string, from: nat)
    requires Closed(a) && OneLine(p) && Absent(a, p) && from <= |a| && HasAt(c, 0, p)
    ensures IndexFrom(a + c, from, p) == Some(|a|)
  {
    InRight(a, c, p, |a|);
    IndexFirst(a + c, from, p);
    forall j | from <= j < |a| ensures !HasAt(a + c, j, p) {
      if HasAt(a + c, j, p) {
        NoCross(a, c, p, j);
        InLeft(a, c, p, j);
      }
    }
  }

  lemma IndexAbsent(s: string, p: string)
    requires Absent(s, p)
    ensures IndexFrom(s, 0, p) == None
  {
    IndexFirst(s, 0, p);
  }

  // ---------------------------------------------------------------- the file as text

  function BlockText(b: Block): string {
    if b.kind.Placeholder? then RejectedBlock(b.name, b.text) else b.text
  }

  function FileText(bs: seq<Block>): string {
    if bs == [] then "" else BlockText(bs[0]) + FileText(bs[1..])
  }

  /** Identifiers as names, no marker inside any text, and whole lines outside placeholders. */
  ghost predicate Printable(b: Block) {
    NameLike(b.name) && Absent(b.text, MARK) && (b.kind.Placeholder? || Closed(b.text))
  }

  ghost predicate AllPrintable(bs: seq<Block>) {
    forall i :: 0 <= i < |bs| ==> Printable(bs[i])
  }

  lemma MarkersOneLine(name: string)
    requires NameLike(name)
    ensures OneLine(BeginMark(name)) && OneLine(EndMark(name)) && OneLine(MARK)
  {
  }

  lemma HasShorter(s: string, i: nat, p: string, tail: string)
    ensures HasAt(s, i, p + tail) ==> HasAt(s, i, p)
  {
    if HasAt(s, i, p + tail) {
      assert s[i..i + |p|] == s[i..i + |p + tail|][..|p|];
    }
  }

  /** A pattern that starts with the marker is absent where the marker is. */
  lemma AbsentLonger(s: string, tail: string)
    requires Absent(s, MARK)
    ensures Absent(s, MARK + tail)
  {
    forall i | 0 <= i ensures !HasAt(s, i, MARK + tail) {
      HasShorter(s, i, MARK, tail);
    }
  }

  predicate NoSlash(s: string) {
    forall k :: 0 <= k < |s| ==> s[k] != '/'
  }

  /** In a marker line the marker occurs at the start only. */
  lemma MarkAtStart(rest: string, i: nat)
    requires NoSlash(rest) && i > 0
    ensures !HasAt(MARK + rest, i, MARK)
  {
    var line := MARK + rest;
    assert line[1] == '/' && line[2] == ' ';
    HasAtChar(line, i, MARK, 0);
    HasAtChar(line, i, MARK, 1);
    assert forall k :: 2 <= k < |MARK| ==> MARK[k] != '/';
    assert forall k :: 2 <= k < |line| ==> line[k] != '/';
  }

  lemma NameNoSlash(word: string, name: string)
    requires NameLike(name) && NoSlash(word)
    ensures NoSlash(word + name + "\n")
  {
  }

  /** A marker line holds a longer pattern only at its start. */
  lemma LineHasOnlyStart(rest: string, tail: string)
    requires NoSlash(rest) && !(tail <= rest)
    ensures Absent(MARK + rest, MARK + tail)
  {
    forall i | 0 <= i ensures !HasAt(MARK + rest, i, MARK + tail) {
      HasShorter(MARK + rest, i, MARK, tail);
      if i > 0 {
        MarkAtStart(rest, i);
      } else {
        StartsLike(rest, tail);
      }
    }
  }

  lemma StartsLike(rest: string, tail: string)
    ensures HasAt(MARK + rest, 0, MARK + tail) <==> tail <= rest
  {
    var line := MARK + rest;
    if |tail| <= |rest| {
      assert line[0..|MARK + tail|] == MARK + rest[..|tail|];
      if line[0..|MARK + tail|] == MARK + tail {
        assert (MARK + tail)[|MARK|..] == tail;
        assert (MARK + rest[..|tail|])[|MARK|..] == rest[..|tail|];
      }
    }
  }

  /** A begin line answers to a name exactly when that name starts its own. */
  lemma BeginLineOf(m: string, name: string)
    requires NameLike(m) && NameLike(name)
    ensures HasAt(BeginMark(m) + "\n", 0, BeginMark(name)) <==> name <= m
    ensures !(name <= m) ==> Absent(BeginMark(m) + "\n", BeginMark(name))
    ensures Absent(BeginMark(m) + "\n", EndMark(name))
  {
    var rest := "BEGIN " + m + "\n";
    assert BeginMark(m) + "\n" == MARK + rest;
    StartsLike(rest, "BEGIN " + name);
    PrefixWithin("BEGIN ", m, name);
    NameNoSlash("BEGIN ", m);
    if !(name <= m) {
      LineHasOnlyStart(rest, "BEGIN " + name);
    }
    assert ("END " + name)[0] != rest[0];
    LineHasOnlyStart(rest, "END " + name);
  }

  lemma EndLineOf(m: string, name: string)
    requires NameLike(m) && NameLike(name)
    ensures HasAt(EndMark(m) + "\n", 0, EndMark(name)) <==> name <= m
    ensures Absent(EndMark(m) + "\n", BeginMark(name))
  {
    var rest := "END " + m + "\n";
    assert EndMark(m) + "\n" == MARK + rest;
    StartsLike(rest, "END " + name);
    PrefixWithin("END ", m, name);
    NameNoSlash("END ", m);
    assert ("BEGIN " + name)[0] != rest[0];
    LineHasOnlyStart(rest, "BEGIN " + name);
  }

  lemma CommonStart(word: string, name: string, x: string)
    ensures word + name <= word + x <==> name <= x
  {
    if word + name <= word + x {
      assert (word + x)[|word|..] == x && (word + name)[|word|..] == name;
      assert (word + x)[|word|..|word + name|] == name;
    }
    if name <= x {
      assert word + x == (word + name) + x[|name|..];
    }
  }

  lemma PrefixWithin(word: string, m: string, name: string)
    requires NameLike(m) && NameLike(name)
    ensures word + name <= word + m + "\n" <==> name <= m
  {
    var x := m + "\n";
    assert word + m + "\n" == word + x;
    CommonStart(word, name, x);
    assert |m| < |name| ==> IsWordChar(name[|m|]);
    assert x[|m|] == '\n' && x[..|m|] == m;
    if name <= m {
      assert x == name + (m[|name|..] + "\n");
    }
  }

  lemma TextWithNewline(text: string, tail: string)
    requires Absent(text, MARK) && OneLine(MARK + tail)
    ensures Absent(text + "\n", MARK + tail)
  {
    AbsentLonger(text, tail);
    var p := MARK + tail;
    forall i | 0 <= i ensures !HasAt(text + "\n", i, p) {
      if i + |p| <= |text| {
        InLeft(text, "\n", p, i);
      } else if i + |p| == |text| + 1 {
        HasAtChar(text + "\n", i, p, |p| - 1);
      }
    }
  }

  lemma BlockClosed(b: Block)
    requires Printable(b)
    ensures Closed(BlockText(b))
  {
  }

  /** A block holds no begin marker for a name that its own does not continue. */
  lemma BlockWithout(b: Block, name: string)
    requires Printable(b) && NameLike(name) && !(b.kind.Placeholder? && name <= b.name)
    ensures Absent(BlockText(b), BeginMark(name))
  {
    MarkersOneLine(name);
    if b.kind.Placeholder? {
      BeginLineOf(b.name, name);
      EndLineOf(b.name, name);
      TextWithNewline(b.text, "BEGIN " + name);
      AbsentConcat(b.text + "\n", EndMark(b.name) + "\n", BeginMark(name));
      AbsentConcat(BeginMark(b.name) + "\n", (b.text + "\n") + (EndMark(b.name) + "\n"), BeginMark(name));
    } else {
      AbsentLonger(b.text, "BEGIN " + name);
    }
  }

  lemma {:induction false} FileTextConcat(a: seq<Block>, c: seq<Block>)
    ensures FileText(a + c) == FileText(a) + FileText(c)
  {
    if a == [] {
      assert a + c == c;
      assert "" + FileText(c) == FileText(c);
    } else {
      assert (a + c)[1..] == a[1..] + c;
      FileTextConcat(a[1..], c);
      assert BlockText(a[0]) + (FileText(a[1..]) + FileText(c)) == (BlockText(a[0]) + FileText(a[1..])) + FileText(c);
    }
  }

  lemma {:induction false} FileClosed(bs: seq<Block>)
    requires AllPrintable(bs)
    ensures Closed(FileText(bs))
  {
    hide BlockText, Printable;
    if bs != [] {
      BlockClosed(bs[0]);
      FileClosed(bs[1..]);
    }
  }

  /** Blocks none of which answers to a name hold no begin marker for it. */
  lemma {:induction false} FileWithout(bs: seq<Block>, name: string)
    requires AllPrintable(bs) && NameLike(name)
    requires forall i :: 0 <= i < |bs| ==> !(bs[i].kind.Placeholder? && name <= bs[i].name)
    ensures Absent(FileText(bs), BeginMark(name))
  {
    hide BlockText, Printable;
    if bs != [] {
      MarkersOneLine(name);
      BlockClosed(bs[0]);
      BlockWithout(bs[0], name);
      FileWithout(bs[1..], name);
      AbsentConcat(BlockText(bs[0]), FileText(bs[1..]), BeginMark(name));
    }
  }

  // ---------------------------------------------------------------- the strip, block by block

  lemma AbsentBetween(a: string, m: string, c: string, p: string, j: nat)
    requires Closed(m) && OneLine(p) && Absent(m, p) && |a| <= j < |a| + |m|
    ensures !HasAt(a + (m + c), j, p)
  {
    InRight(a, m + c, p, j);
    if HasAt(m + c, j - |a|, p) {
      NoCross(m, c, p, j - |a|);
      InLeft(m, c, p, j - |a|);
    }
  }

  /** Searching from the end of a head is searching what follows it. */
  lemma IndexInside(s: string, a: string, r: string, m: string, c: string, p: string)
    requires s == a + r && r == m + c
    requires Closed(m) && OneLine(p) && Absent(m, p) && HasAt(c, 0, p)
    ensures IndexFrom(s, |a|, p) == Some(|a| + |m|)
  {
    forall j: nat | |a| <= j < |a| + |m| ensures !HasAt(s, j, p) {
      AbsentBetween(a, m, c, p, j);
    }
    hide HasAt, OneLine, Closed, Absent;
    InRight(a, r, p, |a| + |m|);
    InRight(m, c, p, |m|);
    IndexFirst(s, |a|, p);
  }

  lemma StripAt(src: string, name: string, i: nat, e: nat, j: nat)
    requires IndexFrom(src, 0, BeginMark(name)) == Some(i) && IndexFrom(src, i, EndMark(name)) == Some(e)
    requires j == e + |EndMark(name)|
    ensures i <= |src| && j <= |src|
    ensures StripRejected(src, name) == (src[..i] + src[if j < |src| && src[j] == '\n' then j + 1 else j..], true)
  {
    hide BeginMark, EndMark, HasAt;
  }

  /** A pattern at the start of the second piece, then one at the start of the fourth. */
  lemma FindTwo(s: string, a: string, r: string, begin: string, r2: string, h: string, body: string, t: string,
                end: string, c: string, p: string, q: string)
    requires s == a + r && r == begin + r2 && r == h + t && h == begin + body && t == end + c
    requires Closed(a) && Closed(begin) && Closed(body) && OneLine(p) && OneLine(q)
    requires Absent(a, p) && HasAt(begin, 0, p) && Absent(begin, q) && Absent(body, q) && HasAt(end, 0, q)
    ensures IndexFrom(s, 0, p) == Some(|a|) && IndexFrom(s, |a|, q) == Some(|a| + |h|)
  {
    hide HasAt, IndexFrom, Closed, OneLine, Absent;
    ClosedConcat(begin, body);
    InLeftHas(begin, r2, p);
    IndexPast(a, r, p, 0);
    AbsentConcat(begin, body, q);
    InLeftHas(end, c, q);
    IndexInside(s, a, r, h, t, q);
  }

  lemma ClosedConcat(a: string, b: string)
    requires Closed(a) && Closed(b)
    ensures Closed(a + b)
  {
  }

  /** What the lines of a placeholder hold of the markers of a name it answers to. */
  lemma BlockLines(b: Block, name: string, begin: string, body: string, end: string)
    requires Printable(b) && NameLike(name) && name <= b.name
    requires begin == BeginMark(b.name) + "\n" && body == b.text + "\n" && end == EndMark(b.name) + "\n"
    ensures Closed(begin) && Closed(body) && OneLine(BeginMark(name)) && OneLine(EndMark(name))
    ensures HasAt(begin, 0, BeginMark(name)) && Absent(begin, EndMark(name))
    ensures Absent(body, EndMark(name)) && HasAt(end, 0, EndMark(name))
  {
    hide HasAt, Absent, OneLine;
    MarkersOneLine(name);
    BeginLineOf(b.name, name);
    EndLineOf(b.name, name);
    TextWithNewline(b.text, "END " + name);
  }

  /** Where the markers of `name` are found around and in a block that answers to it. */
  lemma MarkersFound(a: string, m: string, begin: string, body: string, end: string, c: string, b: Block, name: string)
    requires Closed(a) && Printable(b) && NameLike(name) && name <= b.name && Absent(a, BeginMark(name))
    requires begin == BeginMark(b.name) + "\n" && body == b.text + "\n" && end == EndMark(b.name) + "\n"
    requires m == begin + body
    ensures var src := a + (m + (end + c));
            && IndexFrom(src, 0, BeginMark(name)) == Some(|a|)
            && IndexFrom(src, |a|, EndMark(name)) == Some(|a| + |m|)
  {
    hide *;
    BlockLines(b, name, begin, body, end);
    var t := end + c;
    MiddleFirst(begin, body, t);
    FindTwo(a + (m + t), a, m + t, begin, body + t, m, body, t, end, c, BeginMark(name), EndMark(name));
  }

  lemma MiddleFirst(a: string, b: string, c: string)
    ensures a + (b + c) == (a + b) + c
  {
  }

  lemma InLeftHas(a: string, c: string, p: string)
    requires HasAt(a, 0, p)
    ensures HasAt(a + c, 0, p)
  {
    InLeft(a, c, p, 0);
  }

  lemma BlockSource(a: string, b: Block, m: string, r: string, c: string)
    requires b.kind.Placeholder? && m == (BeginMark(b.name) + "\n") + (b.text + "\n") && r == EndMark(b.name) + "\n" + c
    ensures a + BlockText(b) + c == a + (m + r)
  {
    hide BeginMark, EndMark;
    var begin, body, end := BeginMark(b.name) + "\n", b.text + "\n", EndMark(b.name) + "\n";
    assert BlockText(b) == begin + (body + end);
    MiddleFirst(begin, body, end);
    MiddleFirst(a, m + end, c);
    MiddleFirst(m, end, c);
  }

  /** The file around the block that the markers of `name` pick out, as text. */
  lemma StripSplit(a: string, b: Block, c: string, name: string)
    requires Closed(a) && Printable(b) && b.kind.Placeholder? && NameLike(name) && name <= b.name
    requires Absent(a, BeginMark(name))
    ensures StripRejected(a + BlockText(b) + c, name) ==
            (a + ((if b.name == name then "" else b.name[|name|..] + "\n") + c), true)
  {
    assert NameLike(b.name);
    hide *;
    var m := (BeginMark(b.name) + "\n") + (b.text + "\n");
    var r := EndMark(b.name) + "\n" + c;
    MarkersFound(a, m, BeginMark(b.name) + "\n", b.text + "\n", EndMark(b.name) + "\n", c, b, name);
    BlockSource(a, b, m, r, c);
    StripSplitAt(a + (m + r), a, m, b.name, name, c);
  }

  lemma StripSplitAt(src: string, a: string, m: string, long: string, name: string, c: string)
    requires NameLike(long) && name <= long && src == a + (m + (EndMark(long) + "\n" + c))
    requires IndexFrom(src, 0, BeginMark(name)) == Some(|a|) && IndexFrom(src, |a|, EndMark(name)) == Some(|a| + |m|)
    ensures StripRejected(src, name) == (a + ((if long == name then "" else long[|name|..] + "\n") + c), true)
  {
    hide *;
    var e := |a| + |m|;
    var j := e + |EndMark(name)|;
    StripAt(src, name, |a|, e, j);
    Remainder(src, a, m, long, name, c, j);
  }

  /** Cutting up to the end marker of a name leaves what the longer name adds to it. */
  lemma Remainder(src: string, a: string, m: string, long: string, name: string, c: string, j: nat)
    requires NameLike(long) && name <= long && src == a + (m + (EndMark(long) + "\n" + c))
    requires j == |a| + |m| + |EndMark(name)|
    ensures j < |src| && (src[j] == '\n' <==> long == name)
    ensures src[..|a|] == a
    ensures src[if src[j] == '\n' then j + 1 else j..] == (if long == name then "" else long[|name|..] + "\n") + c
  {
    var tail := long[|name|..];
    assert long == name + tail;
    var head := a + m + EndMark(name);
    hide EndMark, NameLike;
    assert src == head + (tail + "\n" + c);
    assert src[j..] == tail + "\n" + c;
    if tail == "" {
      assert src[j + 1..] == c;
    } else {
      assert src[j] == tail[0] == long[|name|];
    }
  }

  lemma FileAround(bs: seq<Block>, l: seq<Block>, b: Block, r: seq<Block>)
    requires bs == l + ([b] + r)
    ensures FileText(bs) == FileText(l) + BlockText(b) + FileText(r)
  {
    hide BlockText, FileText;
    FileTextConcat(l, [b] + r);
    FileTextConcat([b], r);
    OneBlock(b);
  }

  lemma FileWithoutOne(bs: seq<Block>, k: nat)
    requires k < |bs|
    ensures FileText(Without(bs, k)) == FileText(bs[..k]) + ("" + FileText(bs[k + 1..]))
  {
    hide BlockText, FileText;
    FileTextConcat(bs[..k], bs[k + 1..]);
    assert "" + FileText(bs[k + 1..]) == FileText(bs[k + 1..]);
  }

  /** The text strip is the block strip: it cuts the first placeholder whose name starts with the given one,
      and when that is a longer name the rest of it is left standing on a line of its own. */
  lemma StripIsBlockStrip(bs: seq<Block>, name: string)
    requires AllPrintable(bs) && NameLike(name)
    ensures var k := FirstMarker(bs, name, 0);
            StripRejected(FileText(bs), name) ==
            if k == |bs| then (FileText(bs), false)
            else if bs[k].name == name then (FileText(Without(bs, k)), true)
            else (FileText(bs[..k]) + ((bs[k].name[|name|..] + "\n") + FileText(bs[k + 1..])), true)
  {
    var k := FirstMarker(bs, name, 0);
    hide *;
    if k == |bs| {
      FileWithout(bs, name);
      NothingToStrip(FileText(bs), name);
    } else {
      MarkerFacts(bs, name);
      var l, b, r := bs[..k], bs[k], bs[k + 1..];
      StripOne(bs, l, b, r, name);
      if b.name == name {
        FileWithoutOne(bs, k);
      }
    }
  }

  lemma MarkerFacts(bs: seq<Block>, name: string)
    requires AllPrintable(bs) && FirstMarker(bs, name, 0) < |bs|
    ensures var k := FirstMarker(bs, name, 0);
            && bs == bs[..k] + ([bs[k]] + bs[k + 1..]) && AllPrintable(bs[..k]) && Printable(bs[k])
            && bs[k].kind.Placeholder? && name <= bs[k].name
            && forall i :: 0 <= i < |bs[..k]| ==> !(bs[..k][i].kind.Placeholder? && name <= bs[..k][i].name)
  {
    hide Printable, FirstMarker;
  }

  /** Cutting the block that answers to a name, between blocks before it that do not and any blocks after it. */
  lemma StripOne(bs: seq<Block>, l: seq<Block>, b: Block, r: seq<Block>, name: string)
    requires bs == l + ([b] + r) && AllPrintable(l) && Printable(b) && NameLike(name)
    requires b.kind.Placeholder? && name <= b.name
    requires forall i :: 0 <= i < |l| ==> !(l[i].kind.Placeholder? && name <= l[i].name)
    ensures StripRejected(FileText(bs), name) ==
            (FileText(l) + ((if b.name == name then "" else b.name[|name|..] + "\n") + FileText(r)), true)
  {
    hide *;
    FileWithout(l, name);
    FileClosed(l);
    FileAround(bs, l, b, r);
    StripSplit(FileText(l), b, FileText(r), name);
  }

  lemma OneBlock(b: Block)
    ensures FileText([b]) == BlockText(b)
  {
    assert [b][1..] == [];
    assert FileText([]) == "";
  }

  lemma NothingToStrip(src: string, name: string)
    requires Absent(src, BeginMark(name))
    ensures StripRejected(src, name) == (src, false)
  {
    IndexAbsent(src, BeginMark(name));
  }

  /** Stripping undoes keeping a rejected output: appended to a file without a placeholder whose name continues
      this one, the block is cut out again and nothing else is. */
  lemma StripUndoesAppend(bs: seq<Block>, b: Block)
    requires AllPrintable(bs) && Printable(b) && b.kind.Placeholder?
    requires forall i :: 0 <= i < |bs| && bs[i].kind.Placeholder? ==> !(b.name <= bs[i].name)
    ensures StripRejected(FileText(bs) + RejectedBlock(b.name, b.text), b.name) == (FileText(bs), true)
  {
    hide BlockText, FileText, StripRejected, RejectedBlock;
    FileClosed(bs);
    FileWithout(bs, b.name);
    StripSplit(FileText(bs), b, "", b.name);
    assert BlockText(b) == RejectedBlock(b.name, b.text) by {
      BlockIs(b);
    }
    assert FileText(bs) + RejectedBlock(b.name, b.text) + "" == FileText(bs) + RejectedBlock(b.name, b.text);
    assert FileText(bs) + ("" + "") == FileText(bs);
  }

  lemma BlockIs(b: Block)
    requires b.kind.Placeholder?
    ensures BlockText(b) == RejectedBlock(b.name, b.text)
  {
  }
}
