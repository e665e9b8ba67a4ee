/** The resumable controller merge: method blocks in one generated file, a ledger, and runs over both. */
module ArtifactMerge {
  import opened Options
  import opened Text

  /** Accepted model output, best-effort deterministic body, or a rejected output kept behind a placeholder. */
  datatype Kind = Accepted | Deterministic | Placeholder

  /** One method of the controller file. `marks` are the names whose deterministic mark its text carries. */
  datatype Block = Block(kind: Kind, name: string, text: string, marks: set<string>)

  datatype Status = Planned | Appended | Skipped | Failed

  // ---------------------------------------------------------------- the file

  predicate HasMethod(bs: seq<Block>, name: string) {
    exists i :: 0 <= i < |bs| && bs[i].name == name
  }

  predicate Marked(bs: seq<Block>, name: string) {
    exists i :: 0 <= i < |bs| && name in bs[i].marks
  }

  /** First placeholder whose begin marker starts like the one of `name`: its own, or a longer name's. */
  function FirstMarker(bs: seq<Block>, name: string, i: nat): (k: nat)
    requires i <= |bs|
    ensures i <= k <= |bs|
    ensures k < |bs| ==> bs[k].kind.Placeholder? && name <= bs[k].name
    ensures forall j :: i <= j < k ==> !(bs[j].kind.Placeholder? && name <= bs[j].name)
    decreases |bs| - i
  {
    if i == |bs| || (bs[i].kind.Placeholder? && name <= bs[i].name) then i else FirstMarker(bs, name, i + 1)
  }

  function FirstMethod(bs: seq<Block>, name: string, i: nat): (k: nat)
    requires i <= |bs|
    ensures i <= k <= |bs| && (k < |bs| ==> bs[k].name == name)
    ensures forall j :: i <= j < k ==> bs[j].name != name
    decreases |bs| - i
  {
    if i == |bs| || bs[i].name == name then i else FirstMethod(bs, name, i + 1)
  }

  function Without(bs: seq<Block>, k: nat): seq<Block>
    requires k <= |bs|
  {
    if k == |bs| then bs else bs[..k] + bs[k + 1..]
  }

  /** The file without the kept placeholder of `name`; garbled when a longer name's block was cut instead and
      the rest of that name is left standing in the text. */
  function StripPlaceholder(bs: seq<Block>, name: string): (seq<Block>, bool) {
    var k := FirstMarker(bs, name, 0);
    (Without(bs, k), k < |bs| && bs[k].name != name)
  }

  /** What the new method is merged into: the placeholder goes, and a deterministic body yields. */
  function Cleared(bs: seq<Block>, name: string): (seq<Block>, bool) {
    var (s, garbled) := StripPlaceholder(bs, name);
    (if Marked(s, name) && !garbled then Without(s, FirstMethod(s, name, 0)) else s, garbled)
  }

  /** How rendering, formatting, writing and checking the file go. */
  datatype IO = Fine | RenderFails | EmitFails | WriteFails | LateFails

  datatype Written = Wrote | Kept | Errored

  function MergeInto(file: Option<seq<Block>>, blk: Block, io: IO): (Option<seq<Block>>, Written) {
    var (base, garbled) := match file case None => ([], false) case Some(bs) => Cleared(bs, blk.name);
    if HasMethod(base, blk.name) then (file, Kept)
    else if garbled || io == EmitFails || io == WriteFails then (file, Errored)
    else (Some(base + [blk]), if io == LateFails then Errored else Wrote)
  }

  function Render(file: Option<seq<Block>>, blk: Block, io: IO): (Option<seq<Block>>, Written) {
    if io == RenderFails then (file, Errored) else MergeInto(file, blk, io)
  }

  // ---------------------------------------------------------------- one unit

  /** What the model seam ends with. */
  datatype Reply = Accept(text: string, marks: set<string>) | Reject(payload: string, marks: set<string>)

  /** All that one visit is told from outside: the deterministic body if there is one, the model's reply, and
      how writing goes. */
  datatype Answer = Answer(det: Option<string>, reply: Reply, io: IO)

  /** No deterministic body, and a model call that ended without output. */
  const SILENCE := Answer(None, Reject("", {}), Fine)

  function AnswerTo(answers: map<string, Answer>, name: string): Answer {
    if name in answers then answers[name] else SILENCE
  }

  /** The ledger says appended, and the method on disk is not a deterministic one. */
  predicate Settled(file: Option<seq<Block>>, status: Status, name: string) {
    status == Appended && file.Some? && HasMethod(file.value, name) && !Marked(file.value, name)
  }

  function VisitUnit(file: Option<seq<Block>>, status: Status, name: string, skip: bool, a: Answer):
    (Option<seq<Block>>, Status)
  {
    if Settled(file, status, name) then (file, status)
    else if skip then
      match a.det
      case None => (file, Skipped)
      case Some(text) =>
        var (file', w) := Render(file, Block(Deterministic, name, text, {name}), a.io);
        (file', if w == Errored then Failed else Skipped)
    else
      match a.reply
      case Accept(text, marks) =>
        var (file', w) := Render(file, Block(Accepted, name, text, marks), a.io);
        (file', if w == Errored then Failed else Appended)
      case Reject(payload, marks) =>
        if Trim(payload) == "" then (file, Failed)
        else (Render(file, Block(Placeholder, name, payload, marks), a.io).0, Failed)
  }

  predicate CallsModel(file: Option<seq<Block>>, status: Status, name: string, skip: bool) {
    !skip && !Settled(file, status, name)
  }

  // ---------------------------------------------------------------- a run over all units

  type Ledger = map<string, Status>

  function StatusOf(ledger: Ledger, name: string): Status {
    if name in ledger then ledger[name] else Planned
  }

  /** File, ledger in memory, result lists, and the units the model was called for. */
  datatype Run = Run(file: Option<seq<Block>>, ledger: Ledger, skipped: seq<string>, failed: seq<string>, calls: seq<string>)

  function Visit(r: Run, name: string, skip: bool, a: Answer): Run {
    var status := StatusOf(r.ledger, name);
    var (file, status') := VisitUnit(r.file, status, name, skip, a);
    var settled := Settled(r.file, status, name);
    Run(file, r.ledger[name := status'],
        if !settled && status' == Skipped then r.skipped + [name] else r.skipped,
        if !settled && status' == Failed then r.failed + [name] else r.failed,
        if CallsModel(r.file, status, name, skip) then r.calls + [name] else r.calls)
  }

  function VisitAll(r: Run, units: seq<string>, skip: bool, answers: map<string, Answer>): Run {
    if units == [] then r
    else
      var n := |units| - 1;
      Visit(VisitAll(r, units[..n], skip, answers), units[n], skip, AnswerTo(answers, units[n]))
  }

  method ClearFor(bs: seq<Block>, name: string) returns (src: seq<Block>, garbled: bool)
    ensures (src, garbled) == Cleared(bs, name)
  {
    var k := FirstMarker(bs, name, 0);
    src := Without(bs, k);
    garbled := k < |bs| && bs[k].name != name;
    if Marked(src, name) && !garbled {
      src := Without(src, FirstMethod(src, name, 0));
    }
  }

  lemma SettledStays(file: Option<seq<Block>>, status: Status, name: string, skip: bool, a: Answer)
    requires Settled(file, status, name)
    ensures VisitUnit(file, status, name, skip, a) == (file, status)
  {
  }

  class Conversion {
    var file: Option<seq<Block>>
    var ledger: Ledger
    var skipped: seq<string>
    var failed: seq<string>
    var calls: seq<string>

    constructor (file: Option<seq<Block>>, ledger: Ledger)
      ensures State() == Run(file, ledger, [], [], [])
    {
      this.file, this.ledger, skipped, failed, calls := file, ledger, [], [], [];
    }

    function State(): Run
      reads this
    {
      Run(file, ledger, skipped, failed, calls)
    }

    method WriteArtifact(blk: Block, io: IO) returns (w: Written)
      modifies this`file
      ensures (file, w) == MergeInto(old(file), blk, io)
    {
      hide Cleared, HasMethod;
      var base: seq<Block> := [];
      var garbled := false;
      if file.Some? {
        base, garbled := ClearFor(file.value, blk.name);
      }
      if HasMethod(base, blk.name) {
        return Kept;
      }
      if garbled || io == EmitFails || io == WriteFails {
        return Errored;
      }
      file := Some(base + [blk]);
      if io == LateFails {
        return Errored;
      }
      return Wrote;
    }

    method Append(blk: Block, io: IO) returns (w: Written)
      modifies this`file
      ensures (file, w) == Render(old(file), blk, io)
    {
      if io == RenderFails {
        return Errored;
      }
      w := WriteArtifact(blk, io);
    }

    /** Model-free mode: the deterministic body lands if there is one. */
    method DeliverDeterministic(name: string, a: Answer) returns (status: Status)
      requires !Settled(file, StatusOf(ledger, name), name)
      modifies this`file
      ensures (file, status) == VisitUnit(old(file), StatusOf(ledger, name), name, true, a)
    {
      hide MergeInto, Settled;
      if a.det.None? {
        return Skipped;
      }
      var w := Append(Block(Deterministic, name, a.det.value, {name}), a.io);
      if w == Errored {
        return Failed;
      }
      return Skipped;
    }

    /** Model mode: an accepted body lands, a rejected one is kept behind a placeholder. */
    method DeliverReply(name: string, a: Answer) returns (status: Status)
      requires !Settled(file, StatusOf(ledger, name), name)
      modifies this`file
      ensures (file, status) == VisitUnit(old(file), StatusOf(ledger, name), name, false, a)
    {
      hide MergeInto, Settled, Trim;
      if a.reply.Reject? {
        if Trim(a.reply.payload) != "" {
          var _ := Append(Block(Placeholder, name, a.reply.payload, a.reply.marks), a.io);
        }
        return Failed;
      }
      var w := Append(Block(Accepted, name, a.reply.text, a.reply.marks), a.io);
      if w == Errored {
        return Failed;
      }
      return Appended;
    }

    method VisitController(name: string, skip: bool, a: Answer)
      modifies this
      ensures State() == Visit(old(State()), name, skip, a)
    {
      hide VisitUnit, Settled;
      var status := StatusOf(ledger, name);
      if Settled(file, status, name) {
        SettledStays(file, status, name, skip, a);
        ledger := ledger[name := status];
        return;
      }
      if skip {
        status := DeliverDeterministic(name, a);
      } else {
        calls := calls + [name];
        status := DeliverReply(name, a);
      }
      ledger := ledger[name := status];
      if status == Skipped {
        skipped := skipped + [name];
      } else if status == Failed {
        failed := failed + [name];
      }
    }

    method RunControllers(units: seq<string>, skip: bool, answers: map<string, Answer>)
      modifies this
      ensures State() == VisitAll(old(State()), units, skip, answers)
    {
      for i := 0 to |units|
        invariant State() == VisitAll(old(State()), units[..i], skip, answers)
      {
        hide Visit;
        assert units[..i + 1][..i] == units[..i];
        VisitController(units[i], skip, AnswerTo(answers, units[i]));
      }
      assert units[..|units|] == units;
    }
  }

  // ---------------------------------------------------------------- one merge

  ghost predicate DistinctNames(bs: seq<Block>) {
    forall i, j :: 0 <= i < j < |bs| ==> bs[i].name != bs[j].name
  }

  predicate OwnMarks(b: Block) {
    b.marks == if b.kind.Deterministic? then {b.name} else {}
  }

  /** One method per name, and only deterministic bodies carry a mark, their own. */
  ghost predicate Sound(bs: seq<Block>) {
    DistinctNames(bs) && forall i :: 0 <= i < |bs| ==> OwnMarks(bs[i])
  }

  ghost predicate SoundFile(file: Option<seq<Block>>) {
    file.Some? ==> Sound(file.value)
  }

  lemma WithoutSound(bs: seq<Block>, k: nat)
    requires Sound(bs) && k <= |bs|
    ensures Sound(Without(bs, k))
  {
  }

  lemma ClearedSound(bs: seq<Block>, name: string)
    requires Sound(bs)
    ensures Sound(Cleared(bs, name).0)
  {
    hide Sound;
    WithoutSound(bs, FirstMarker(bs, name, 0));
    var s := StripPlaceholder(bs, name).0;
    WithoutSound(s, FirstMethod(s, name, 0));
  }

  /** A write never stacks a second method of one name. */
  lemma MergeSound(file: Option<seq<Block>>, blk: Block, io: IO)
    requires SoundFile(file) && OwnMarks(blk)
    ensures SoundFile(Render(file, blk, io).0)
  {
    hide Cleared;
    if file.Some? {
      ClearedSound(file.value, blk.name);
    }
  }

  lemma WithoutKeeps(bs: seq<Block>, k: nat, i: nat)
    requires k <= |bs| && i < |bs| && i != k
    ensures bs[i] in Without(bs, k)
  {
    if k < |bs| {
      assert Without(bs, k)[if i < k then i else i - 1] == bs[i];
    }
  }

  lemma OtherNameSurvives(bs: seq<Block>, i: nat, name: string)
    requires i < |bs| && bs[i].kind.Accepted? && bs[i].name != name
    ensures bs[i] in Cleared(bs, name).0
  {
    var k := FirstMarker(bs, name, 0);
    WithoutKeeps(bs, k, i);
    var s := Without(bs, k);
    var i': nat :| i' < |s| && s[i'] == bs[i];
    WithoutKeeps(s, FirstMethod(s, name, 0), i');
  }

  /** Clearing for a name whose accepted body is there leaves the file alone, unless its mark is found. */
  lemma OwnNameCleared(bs: seq<Block>, i: nat)
    requires DistinctNames(bs) && i < |bs| && bs[i].kind.Accepted?
    ensures var (s, garbled) := StripPlaceholder(bs, bs[i].name);
            !garbled ==> s == bs && Cleared(bs, bs[i].name).0 == if Marked(s, bs[i].name) then Without(bs, i) else bs
  {
    hide Marked, HasMethod;
    var k := FirstMarker(bs, bs[i].name, 0);
    if k < |bs| {
      assert k != i;
    }
  }

  /** Merging a method drops an accepted body exactly when it is the body of that very method, the write goes
      through, and some text in the file carries that method's deterministic mark. */
  lemma DropsAcceptedIff(bs: seq<Block>, i: nat, blk: Block, io: IO)
    requires DistinctNames(bs) && i < |bs| && bs[i].kind.Accepted? && blk != bs[i]
    ensures bs[i] !in MergeInto(Some(bs), blk, io).0.value <==>
            bs[i].name == blk.name && !StripPlaceholder(bs, blk.name).1 && Marked(bs, blk.name) &&
            io != EmitFails && io != WriteFails
  {
    hide Marked, Cleared, StripPlaceholder, HasMethod;
    var (base, garbled) := Cleared(bs, blk.name);
    ClearedFlag(bs, blk.name);
    if bs[i].name != blk.name {
      OtherNameSurvives(bs, i, blk.name);
    } else if !garbled {
      OwnNameCleared(bs, i);
      DroppedIsGone(bs, i);
    }
  }

  lemma ClearedFlag(bs: seq<Block>, name: string)
    ensures Cleared(bs, name).1 == StripPlaceholder(bs, name).1
  {
  }

  lemma DroppedIsGone(bs: seq<Block>, m: nat)
    requires DistinctNames(bs) && m < |bs|
    ensures bs[m] !in Without(bs, m) && !HasMethod(Without(bs, m), bs[m].name)
  {
  }

  // ---------------------------------------------------------------- histories

  /** What survives between runs: whether the tree is there, its controller file, and the saved ledger. */
  datatype World = World(tree: bool, file: Option<seq<Block>>, saved: Ledger)

  const START := World(false, None, map[])

  /** A complete run, a run that died after some visits without saving its ledger, and the user's clean-ups. */
  datatype Event =
    | FullRun(skip: bool, answers: map<string, Answer>)
    | BrokenRun(skip: bool, visited: nat, answers: map<string, Answer>)
    | DeleteTree
    | ClearLedger

  /** A fresh ledger against an existing tree is refused. */
  predicate Refuses(w: World) {
    w.saved == map[] && w.tree
  }

  function Begin(w: World): Run {
    Run(w.file, w.saved, [], [], [])
  }

  function Step(units: seq<string>, w: World, e: Event): World {
    match e
    case FullRun(skip, answers) =>
      if Refuses(w) then w
      else var r := VisitAll(Begin(w), units, skip, answers); World(true, r.file, r.ledger)
    case BrokenRun(skip, visited, answers) =>
      if Refuses(w) then w
      else
        var upto := if visited < |units| then visited else |units|;
        World(true, VisitAll(Begin(w), units[..upto], skip, answers).file, w.saved)
    case DeleteTree => World(false, None, w.saved)
    case ClearLedger => World(w.tree, w.file, map[])
  }

  function Exec(units: seq<string>, w: World, events: seq<Event>): World {
    if events == [] then w else Step(units, Exec(units, w, events[..|events| - 1]), events[|events| - 1])
  }

  /** No model output carries a deterministic mark. */
  predicate PlainReplies(answers: map<string, Answer>) {
    forall n :: n in answers ==> answers[n].reply.marks == {}
  }

  predicate PlainEvent(e: Event) {
    (e.FullRun? || e.BrokenRun?) ==> PlainReplies(e.answers)
  }

  predicate PlainEvents(events: seq<Event>) {
    forall k :: 0 <= k < |events| ==> PlainEvent(events[k])
  }

  predicate CompleteEvents(events: seq<Event>) {
    forall k :: 0 <= k < |events| ==> !events[k].BrokenRun?
  }

  // ---------------------------------------------------------------- no duplicates, nothing accepted is lost

  lemma VisitSound(file: Option<seq<Block>>, status: Status, name: string, skip: bool, a: Answer)
    requires SoundFile(file) && a.reply.marks == {}
    ensures SoundFile(VisitUnit(file, status, name, skip, a).0)
  {
    hide Render, SoundFile, Settled, Trim;
    if skip && a.det.Some? {
      MergeSound(file, Block(Deterministic, name, a.det.value, {name}), a.io);
    }
    if a.reply.Accept? {
      MergeSound(file, Block(Accepted, name, a.reply.text, {}), a.io);
    } else {
      MergeSound(file, Block(Placeholder, name, a.reply.payload, {}), a.io);
    }
  }

  lemma {:induction false} VisitAllSound(r: Run, units: seq<string>, skip: bool, answers: map<string, Answer>)
    requires SoundFile(r.file) && PlainReplies(answers)
    ensures SoundFile(VisitAll(r, units, skip, answers).file)
  {
    hide SoundFile, VisitUnit, Settled;
    if units != [] {
      var n := |units| - 1;
      VisitAllSound(r, units[..n], skip, answers);
      var s := VisitAll(r, units[..n], skip, answers);
      VisitSound(s.file, StatusOf(s.ledger, units[n]), units[n], skip, AnswerTo(answers, units[n]));
    }
  }

  /** Over any history the file never holds two methods of one name. */
  lemma {:induction false} AlwaysSound(units: seq<string>, events: seq<Event>)
    requires PlainEvents(events)
    ensures SoundFile(Exec(units, START, events).file)
  {
    hide VisitAll;
    if events != [] {
      var n := |events| - 1;
      AlwaysSound(units, events[..n]);
      var w, e := Exec(units, START, events[..n]), events[n];
      assert PlainEvent(e);
      if e.FullRun? {
        VisitAllSound(Begin(w), units, e.skip, e.answers);
      } else if e.BrokenRun? {
        VisitAllSound(Begin(w), units[..if e.visited < |units| then e.visited else |units|], e.skip, e.answers);
      }
    }
  }

  predicate Holds(file: Option<seq<Block>>, blk: Block) {
    file.Some? && blk in file.value
  }

  lemma RenderKeeps(file: Option<seq<Block>>, accepted: Block, blk: Block, io: IO)
    requires SoundFile(file) && Holds(file, accepted) && accepted.kind.Accepted? && OwnMarks(accepted)
    ensures Holds(Render(file, blk, io).0, accepted)
  {
    hide MergeInto;
    if blk != accepted && io != RenderFails {
      var bs := file.value;
      var i: nat :| i < |bs| && bs[i] == accepted;
      DropsAcceptedIff(bs, i, blk, io);
      MergeStaysSome(bs, blk, io);
    } else if io != RenderFails {
      MergeSame(file, blk, io);
    }
  }

  lemma MergeStaysSome(bs: seq<Block>, blk: Block, io: IO)
    ensures MergeInto(Some(bs), blk, io).0.Some?
  {
  }

  /** Merging a body that is already there leaves it there. */
  lemma MergeSame(file: Option<seq<Block>>, blk: Block, io: IO)
    requires Holds(file, blk)
    ensures Holds(MergeInto(file, blk, io).0, blk)
  {
  }

  lemma VisitKeeps(file: Option<seq<Block>>, blk: Block, status: Status, name: string, skip: bool, a: Answer)
    requires SoundFile(file) && Holds(file, blk) && blk.kind.Accepted? && OwnMarks(blk)
    ensures Holds(VisitUnit(file, status, name, skip, a).0, blk)
  {
    hide Render, SoundFile, Settled, Trim, Holds;
    if skip && a.det.Some? {
      RenderKeeps(file, blk, Block(Deterministic, name, a.det.value, {name}), a.io);
    }
    if a.reply.Accept? {
      RenderKeeps(file, blk, Block(Accepted, name, a.reply.text, a.reply.marks), a.io);
    } else {
      RenderKeeps(file, blk, Block(Placeholder, name, a.reply.payload, a.reply.marks), a.io);
    }
  }

  lemma {:induction false} VisitAllKeeps(r: Run, blk: Block, units: seq<string>, skip: bool, answers: map<string, Answer>)
    requires SoundFile(r.file) && PlainReplies(answers)
    requires Holds(r.file, blk) && blk.kind.Accepted? && OwnMarks(blk)
    ensures Holds(VisitAll(r, units, skip, answers).file, blk)
  {
    hide SoundFile, VisitUnit, Settled, Holds;
    if units != [] {
      var n := |units| - 1;
      VisitAllKeeps(r, blk, units[..n], skip, answers);
      VisitAllSound(r, units[..n], skip, answers);
      var s := VisitAll(r, units[..n], skip, answers);
      VisitKeeps(s.file, blk, StatusOf(s.ledger, units[n]), units[n], skip, AnswerTo(answers, units[n]));
    }
  }

  /** After any history, an accepted body on disk survives every further run, complete or broken. */
  lemma AcceptedSurvives(units: seq<string>, events: seq<Event>, e: Event, blk: Block)
    requires PlainEvents(events) && PlainEvent(e) && !e.DeleteTree?
    requires Holds(Exec(units, START, events).file, blk) && blk.kind.Accepted?
    ensures Holds(Step(units, Exec(units, START, events), e).file, blk)
  {
    hide VisitAll, Exec;
    AlwaysSound(units, events);
    var w := Exec(units, START, events);
    assert OwnMarks(blk);
    if e.FullRun? {
      VisitAllKeeps(Begin(w), blk, units, e.skip, e.answers);
    } else if e.BrokenRun? {
      VisitAllKeeps(Begin(w), blk, units[..if e.visited < |units| then e.visited else |units|], e.skip, e.answers);
    }
  }

  // ---------------------------------------------------------------- appended means accepted

  predicate HasKind(file: Option<seq<Block>>, name: string, kind: Kind) {
    file.Some? && exists i :: 0 <= i < |file.value| && file.value[i].name == name && file.value[i].kind == kind
  }

  /** No name of the plan continues another one. */
  predicate PrefixFree(units: seq<string>) {
    forall i, j :: 0 <= i < |units| && 0 <= j < |units| && units[i] != units[j] ==> !(units[i] <= units[j])
  }

  ghost predicate AppendedClean(file: Option<seq<Block>>, ledger: Ledger) {
    forall n :: StatusOf(ledger, n) == Appended ==> !HasKind(file, n, Placeholder)
  }

  predicate NamesIn(file: Option<seq<Block>>, units: seq<string>) {
    file.Some? ==> forall i :: 0 <= i < |file.value| ==> file.value[i].name in units
  }

  /** Cleared for a name, the file holds that name's accepted body or no method of that name. */
  lemma ClearedLeavesAccepted(bs: seq<Block>, name: string, units: seq<string>)
    requires Sound(bs) && PrefixFree(units) && name in units && NamesIn(Some(bs), units)
    ensures var (base, garbled) := Cleared(bs, name);
            !garbled && (HasMethod(base, name) ==> HasKind(Some(bs), name, Accepted))
  {
    var k := FirstMarker(bs, name, 0);
    var s, base := Without(bs, k), Cleared(bs, name).0;
    WithoutSound(bs, k);
    if HasMethod(base, name) {
      var m := FirstMethod(s, name, 0);
      if m < |s| {
        DroppedIsGone(s, m);
      }
      if k < |bs| {
        DroppedIsGone(bs, k);
      } else if i: nat :| i < |bs| && bs[i].name == name && !bs[i].kind.Accepted? {
        assert false;
      }
    }
  }

  /** A visit keeps names within the plan, and a unit that ends appended has an accepted body on disk. */
  lemma VisitLands(file: Option<seq<Block>>, status: Status, name: string, skip: bool, a: Answer, units: seq<string>)
    requires SoundFile(file) && PrefixFree(units) && name in units && NamesIn(file, units) && a.reply.marks == {}
    requires status == Appended ==> !HasKind(file, name, Placeholder)
    ensures var (file', status') := VisitUnit(file, status, name, skip, a);
            NamesIn(file', units) && (status' == Appended ==> HasKind(file', name, Accepted))
  {
    hide VisitUnit, Render, NamesIn, HasKind, Trim;
    if Settled(file, status, name) {
      SettledAccepted(file, status, name);
      SettledStays(file, status, name, skip, a);
    } else {
      hide Settled;
      UnsettledLands(file, status, name, skip, a, units);
    }
  }

  lemma SettledAccepted(file: Option<seq<Block>>, status: Status, name: string)
    requires SoundFile(file) && Settled(file, status, name) && !HasKind(file, name, Placeholder)
    ensures HasKind(file, name, Accepted)
  {
    var bs := file.value;
    var i :| 0 <= i < |bs| && bs[i].name == name;
    assert bs[i].kind.Accepted?;
  }

  lemma RenderLands(file: Option<seq<Block>>, blk: Block, io: IO, units: seq<string>)
    requires SoundFile(file) && PrefixFree(units) && blk.name in units && NamesIn(file, units)
    ensures var (file', w) := Render(file, blk, io);
            NamesIn(file', units) && (blk.kind.Accepted? && w != Errored ==> HasKind(file', blk.name, Accepted))
  {
    hide Cleared;
    if file.Some? {
      ClearedLeavesAccepted(file.value, blk.name, units);
      ClearedNames(file.value, blk.name, units);
    }
    var (file', w) := Render(file, blk, io);
    if w == Wrote {
      assert file'.value[|file'.value| - 1] == blk;
    }
  }

  lemma ClearedNames(bs: seq<Block>, name: string, units: seq<string>)
    requires NamesIn(Some(bs), units)
    ensures NamesIn(Some(Cleared(bs, name).0), units)
  {
    var s := StripPlaceholder(bs, name).0;
  }

  lemma UnsettledLands(file: Option<seq<Block>>, status: Status, name: string, skip: bool, a: Answer, units: seq<string>)
    requires SoundFile(file) && PrefixFree(units) && name in units && NamesIn(file, units)
    requires !Settled(file, status, name)
    ensures var (file', status') := VisitUnit(file, status, name, skip, a);
            NamesIn(file', units) && (status' == Appended ==> HasKind(file', name, Accepted))
  {
    hide Render, NamesIn, HasKind, Trim, Settled, SoundFile, PrefixFree;
    if skip && a.det.Some? {
      RenderLands(file, Block(Deterministic, name, a.det.value, {name}), a.io, units);
    }
    if a.reply.Accept? {
      RenderLands(file, Block(Accepted, name, a.reply.text, a.reply.marks), a.io, units);
    } else {
      RenderLands(file, Block(Placeholder, name, a.reply.payload, a.reply.marks), a.io, units);
    }
  }

  /** With prefix-free names, clearing for one name leaves the blocks of all others. */
  lemma OtherBlockSurvives(bs: seq<Block>, i: nat, name: string, units: seq<string>)
    requires i < |bs| && bs[i].name != name && PrefixFree(units) && name in units && NamesIn(Some(bs), units)
    ensures bs[i] in Cleared(bs, name).0
  {
    hide Marked;
    var k := FirstMarker(bs, name, 0);
    assert bs[i].name in units;
    var a :| 0 <= a < |units| && units[a] == name;
    var b :| 0 <= b < |units| && units[b] == bs[i].name;
    WithoutKeeps(bs, k, i);
    var s := Without(bs, k);
    var i': nat :| i' < |s| && s[i'] == bs[i];
    WithoutKeeps(s, FirstMethod(s, name, 0), i');
  }

  lemma ClearedSubset(bs: seq<Block>, name: string)
    ensures forall i :: 0 <= i < |Cleared(bs, name).0| ==> Cleared(bs, name).0[i] in bs
  {
    hide Marked;
    var s := StripPlaceholder(bs, name).0;
  }

  lemma RenderOther(file: Option<seq<Block>>, blk: Block, io: IO, other: string, kind: Kind, units: seq<string>)
    requires other != blk.name && PrefixFree(units) && blk.name in units && NamesIn(file, units)
    ensures HasKind(Render(file, blk, io).0, other, kind) <==> HasKind(file, other, kind)
  {
    hide Cleared, HasMethod, PrefixFree, NamesIn;
    if file.Some? {
      ClearedSubset(file.value, blk.name);
      if HasKind(file, other, kind) {
        var i :| 0 <= i < |file.value| && file.value[i].name == other && file.value[i].kind == kind;
        OtherBlockSurvives(file.value, i, blk.name, units);
        LandsBehind(Cleared(file.value, blk.name).0, blk, file.value[i]);
      }
    }
  }

  lemma LandsBehind(base: seq<Block>, blk: Block, b: Block)
    requires b in base
    ensures HasKind(Some(base + [blk]), b.name, b.kind)
  {
    var i :| 0 <= i < |base| && base[i] == b;
    assert (base + [blk])[i] == b;
  }

  /** A visit to one unit leaves the kinds of all others. */
  lemma VisitOther(file: Option<seq<Block>>, status: Status, name: string, skip: bool, a: Answer, other: string,
                   kind: Kind, units: seq<string>)
    requires other != name && PrefixFree(units) && name in units && NamesIn(file, units)
    ensures HasKind(VisitUnit(file, status, name, skip, a).0, other, kind) <==> HasKind(file, other, kind)
  {
    hide Render, HasKind, Trim, Settled, PrefixFree, NamesIn;
    if skip && a.det.Some? {
      RenderOther(file, Block(Deterministic, name, a.det.value, {name}), a.io, other, kind, units);
    }
    if a.reply.Accept? {
      RenderOther(file, Block(Accepted, name, a.reply.text, a.reply.marks), a.io, other, kind, units);
    } else {
      RenderOther(file, Block(Placeholder, name, a.reply.payload, a.reply.marks), a.io, other, kind, units);
    }
  }

  /** What the file and the ledger in memory satisfy together. */
  ghost predicate Agree(file: Option<seq<Block>>, ledger: Ledger, units: seq<string>) {
    SoundFile(file) && NamesIn(file, units) && AppendedClean(file, ledger)
  }

  lemma VisitAgrees(r: Run, name: string, skip: bool, a: Answer, units: seq<string>)
    requires Agree(r.file, r.ledger, units) && PrefixFree(units) && name in units && a.reply.marks == {}
    ensures var s := Visit(r, name, skip, a);
            Agree(s.file, s.ledger, units) && (StatusOf(s.ledger, name) == Appended ==> HasKind(s.file, name, Accepted))
  {
    hide VisitUnit, Settled, SoundFile, PrefixFree, NamesIn, HasKind;
    var status := StatusOf(r.ledger, name);
    VisitSound(r.file, status, name, skip, a);
    VisitLands(r.file, status, name, skip, a, units);
    var s := Visit(r, name, skip, a);
    forall n | StatusOf(s.ledger, n) == Appended ensures !HasKind(s.file, n, Placeholder) {
      if n == name {
        OneKind(s.file, n);
      } else {
        assert StatusOf(r.ledger, n) == Appended;
        VisitOther(r.file, status, name, skip, a, n, Placeholder, units);
      }
    }
  }

  lemma OneKind(file: Option<seq<Block>>, n: string)
    requires SoundFile(file) && HasKind(file, n, Accepted)
    ensures !HasKind(file, n, Placeholder)
  {
  }

  /** A run keeps ledger and file in agreement, and every unit it leaves appended has its accepted body on disk. */
  lemma {:induction false} VisitAllAgrees(r: Run, visited: seq<string>, skip: bool, answers: map<string, Answer>, units: seq<string>)
    requires Agree(r.file, r.ledger, units) && PrefixFree(units) && PlainReplies(answers)
    requires forall n :: n in visited ==> n in units
    ensures var s := VisitAll(r, visited, skip, answers);
            && Agree(s.file, s.ledger, units)
            && forall n :: n in visited && StatusOf(s.ledger, n) == Appended ==> HasKind(s.file, n, Accepted)
  {
    hide Visit, PrefixFree, HasKind, Agree, PlainReplies;
    if visited != [] {
      var k := |visited| - 1;
      VisitAllAgrees(r, visited[..k], skip, answers, units);
      var s, name := VisitAll(r, visited[..k], skip, answers), visited[k];
      PlainAnswer(answers, name);
      VisitAgrees(s, name, skip, AnswerTo(answers, name), units);
      var s' := Visit(s, name, skip, AnswerTo(answers, name));
      forall n | n in visited && StatusOf(s'.ledger, n) == Appended ensures HasKind(s'.file, n, Accepted) {
        if n != name {
          assert n in visited[..k];
          StatusOthers(s, name, skip, AnswerTo(answers, name), n);
          KindStays(s, name, skip, AnswerTo(answers, name), n, Accepted, units);
        }
      }
    }
  }

  lemma PlainAnswer(answers: map<string, Answer>, name: string)
    requires PlainReplies(answers)
    ensures AnswerTo(answers, name).reply.marks == {}
  {
  }

  lemma KindStays(r: Run, name: string, skip: bool, a: Answer, n: string, kind: Kind, units: seq<string>)
    requires Agree(r.file, r.ledger, units) && PrefixFree(units) && name in units && n != name
    ensures HasKind(Visit(r, name, skip, a).file, n, kind) <==> HasKind(r.file, n, kind)
  {
    hide VisitUnit, Settled, HasKind, PrefixFree;
    VisitOther(r.file, StatusOf(r.ledger, name), name, skip, a, n, kind, units);
  }

  lemma StatusOthers(r: Run, name: string, skip: bool, a: Answer, n: string)
    requires n != name
    ensures StatusOf(Visit(r, name, skip, a).ledger, n) == StatusOf(r.ledger, n)
  {
    hide VisitUnit, Settled;
  }

  ghost predicate AppendedNeverPlaceholder(w: World) {
    AppendedClean(w.file, w.saved)
  }

  /** Over any history of complete runs and clean-ups, with prefix-free names, file and saved ledger agree. */
  lemma {:induction false} CompleteAgrees(units: seq<string>, events: seq<Event>)
    requires PrefixFree(units) && PlainEvents(events) && CompleteEvents(events)
    ensures var w := Exec(units, START, events); Agree(w.file, w.saved, units)
  {
    hide VisitAll, HasKind, PrefixFree, StatusOf;
    if events == [] {
      NothingAppended();
    } else {
      var n := |events| - 1;
      CompleteAgrees(units, events[..n]);
      var w, e := Exec(units, START, events[..n]), events[n];
      assert PlainEvent(e) && !e.BrokenRun?;
      match e
      case FullRun(skip, answers) => VisitAllAgrees(Begin(w), units, skip, answers, units);
      case DeleteTree => NoFileClean(w.saved);
      case ClearLedger => NothingAppended();
    }
  }

  lemma NothingAppended()
    ensures forall n :: StatusOf(map[], n) != Appended
  {
  }

  lemma NoFileClean(ledger: Ledger)
    ensures AppendedClean(None, ledger)
  {
  }

  // ---------------------------------------------------------------- where it fails

  /** A visit whose answer is silence changes nothing on disk. */
  lemma SilentVisit(file: Option<seq<Block>>, status: Status, name: string)
    ensures VisitUnit(file, status, name, false, SILENCE).0 == file
  {
    hide Render, Settled;
    assert Trim("") == "";
  }

  /** A run in which only one unit gets an answer changes the file as the visit to that unit does. */
  lemma {:induction false} OnlyOne(r: Run, visited: seq<string>, name: string, a: Answer)
    requires forall i, j :: 0 <= i < j < |visited| ==> visited[i] != visited[j]
    ensures var s := VisitAll(r, visited, false, map[name := a]);
            var (file, status) := VisitUnit(r.file, StatusOf(r.ledger, name), name, false, a);
            if name in visited then s.file == file && StatusOf(s.ledger, name) == status
            else s.file == r.file && StatusOf(s.ledger, name) == StatusOf(r.ledger, name)
  {
    hide VisitUnit, Settled;
    if visited != [] {
      var k := |visited| - 1;
      OnlyOne(r, visited[..k], name, a);
      var s := VisitAll(r, visited[..k], false, map[name := a]);
      if visited[k] == name {
        assert name !in visited[..k];
      } else {
        SilentVisit(s.file, StatusOf(s.ledger, visited[k]), visited[k]);
        StatusOthers(s, visited[k], false, SILENCE, name);
        assert name in visited ==> name in visited[..k];
      }
    }
  }

  const REFUSED := Answer(None, Reject("x", {}), Fine)
  const GOOD := Answer(None, Accept("y", {}), Fine)

  function Refused(name: string): Block {
    Block(Placeholder, name, "x", {})
  }

  lemma RefusedIsKept(file: Option<seq<Block>>, status: Status, name: string)
    requires status != Appended
    ensures VisitUnit(file, status, name, false, REFUSED) == (MergeInto(file, Refused(name), Fine).0, Failed)
  {
    hide MergeInto;
    assert Trim("x") == "x";
  }

  lemma FirstRejection(a: string)
    ensures MergeInto(None, Refused(a), Fine).0 == Some([Refused(a)])
  {
    assert [] + [Refused(a)] == [Refused(a)];
  }

  lemma SecondRejection(a: string, b: string)
    requires a != b && a <= b
    ensures MergeInto(Some([Refused(a)]), Refused(b), Fine).0 == Some([Refused(a), Refused(b)])
  {
    var bs := [Refused(a)];
    assert !(b <= a);
    assert FirstMarker(bs, b, 0) == 1;
    assert Cleared(bs, b) == (bs, false);
    assert bs + [Refused(b)] == [Refused(a), Refused(b)];
  }

  lemma RejectedAgain(a: string, b: string)
    requires a != b
    ensures MergeInto(Some([Refused(a), Refused(b)]), Refused(a), Fine).0 == Some([Refused(b), Refused(a)])
  {
    var bs := [Refused(a), Refused(b)];
    assert FirstMarker(bs, a, 0) == 0;
    assert Without(bs, 0) == [Refused(b)];
    assert Cleared(bs, a) == ([Refused(b)], false);
    assert [Refused(b)] + [Refused(a)] == [Refused(b), Refused(a)];
  }

  /** The accepted body finds the longer name's marker first; what is left still has the placeholder, which
      counts as the method, so nothing is written and no error is reported. */
  lemma AcceptedIsDropped(a: string, b: string, status: Status)
    requires a != b && a <= b && status != Appended
    ensures VisitUnit(Some([Refused(b), Refused(a)]), status, a, false, GOOD) == (Some([Refused(b), Refused(a)]), Appended)
  {
    var bs := [Refused(b), Refused(a)];
    assert FirstMarker(bs, a, 0) == 0;
    assert Without(bs, 0) == [Refused(a)];
    assert HasMethod([Refused(a)], a) by {
      assert [Refused(a)][0].name == a;
    }
    assert MergeInto(Some(bs), Block(Accepted, a, "y", {}), Fine) == (Some(bs), Kept);
  }

  ghost predicate DistinctUnits(units: seq<string>) {
    forall i, j :: 0 <= i < j < |units| ==> units[i] != units[j]
  }

  /** One complete run in which only `name` gets an answer. */
  lemma RunOnly(units: seq<string>, w: World, name: string, a: Answer)
    requires DistinctUnits(units) && name in units && !Refuses(w)
    ensures var w' := Step(units, w, FullRun(false, map[name := a]));
            && w'.tree && (w'.file, StatusOf(w'.saved, name)) == VisitUnit(w.file, StatusOf(w.saved, name), name, false, a)
            && w'.saved != map[]
            && forall m :: m !in units ==> StatusOf(w'.saved, m) == StatusOf(w.saved, m)
  {
    hide VisitUnit, VisitAll;
    OnlyOne(Begin(w), units, name, a);
    RunRegisters(Begin(w), units, false, map[name := a]);
    RunOthers(Begin(w), units, false, map[name := a]);
    assert name in VisitAll(Begin(w), units, false, map[name := a]).ledger;
  }

  lemma {:induction false} RunRegisters(r: Run, units: seq<string>, skip: bool, answers: map<string, Answer>)
    ensures forall n :: n in units ==> n in VisitAll(r, units, skip, answers).ledger
  {
    hide VisitUnit, Settled;
    if units != [] {
      RunRegisters(r, units[..|units| - 1], skip, answers);
    }
  }

  lemma {:induction false} RunOthers(r: Run, units: seq<string>, skip: bool, answers: map<string, Answer>)
    ensures forall n :: n !in units ==> StatusOf(VisitAll(r, units, skip, answers).ledger, n) == StatusOf(r.ledger, n)
  {
    hide VisitUnit, Settled;
    if units != [] {
      RunOthers(r, units[..|units| - 1], skip, answers);
    }
  }

  /** After a run without an answer for it, a unit that was not appended is not. */
  lemma StaysUnappended(units: seq<string>, w: World, name: string, a: Answer, other: string)
    requires DistinctUnits(units) && !Refuses(w) && other != name
    requires StatusOf(w.saved, other) != Appended
    ensures StatusOf(Step(units, w, FullRun(false, map[name := a])).saved, other) != Appended
  {
    hide VisitUnit, VisitAll;
    SilentStatus(Begin(w), units, name, a, other);
  }

  lemma {:induction false} SilentStatus(r: Run, units: seq<string>, name: string, a: Answer, other: string)
    requires other != name && StatusOf(r.ledger, other) != Appended
    ensures StatusOf(VisitAll(r, units, false, map[name := a]).ledger, other) != Appended
  {
    hide Render, Settled, VisitUnit;
    if units != [] {
      var n := |units| - 1;
      SilentStatus(r, units[..n], name, a, other);
      var s := VisitAll(r, units[..n], false, map[name := a]);
      if units[n] == other {
        SilentFails(s.file, StatusOf(s.ledger, other), other);
      }
    }
  }

  lemma SilentFails(file: Option<seq<Block>>, status: Status, name: string)
    requires status != Appended
    ensures VisitUnit(file, status, name, false, SILENCE).1 == Failed
  {
    assert Trim("") == "";
  }

  function RefuseOnly(name: string): Event {
    FullRun(false, map[name := REFUSED])
  }

  function AcceptOnly(name: string): Event {
    FullRun(false, map[name := GOOD])
  }

  function LosingHistory(a: string, b: string): seq<Event> {
    [RefuseOnly(a), RefuseOnly(b), RefuseOnly(a), AcceptOnly(a)]
  }

  /** Four complete runs after which a unit is recorded as appended while only its panicking placeholder is there. */
  lemma PrefixLosesBody(units: seq<string>, a: string, b: string)
    requires DistinctUnits(units) && a in units && b in units && a != b && a <= b
    ensures var h := LosingHistory(a, b); var w := Exec(units, START, h);
            && PlainEvents(h) && CompleteEvents(h)
            && StatusOf(w.saved, a) == Appended && w.file == Some([Refused(b), Refused(a)])
  {
    hide Step, MergeInto, VisitUnit, StatusOf;
    var h := LosingHistory(a, b);
    var w0, w1, w2, w3 := START, Exec(units, START, h[..1]), Exec(units, START, h[..2]), Exec(units, START, h[..3]);
    ExecNext(units, h, 0);
    ExecNext(units, h, 1);
    ExecNext(units, h, 2);
    ExecNext(units, h, 3);
    assert h[..4] == h && h[..0] == [];
    StartPlanned();
    RunOnly(units, w0, a, REFUSED);
    RefusedIsKept(None, StatusOf(w0.saved, a), a);
    FirstRejection(a);
    StaysUnappended(units, w0, a, REFUSED, b);
    RunOnly(units, w1, b, REFUSED);
    RefusedIsKept(w1.file, StatusOf(w1.saved, b), b);
    SecondRejection(a, b);
    StaysUnappended(units, w1, b, REFUSED, a);
    RunOnly(units, w2, a, REFUSED);
    RefusedIsKept(w2.file, StatusOf(w2.saved, a), a);
    RejectedAgain(a, b);
    RunOnly(units, w3, a, GOOD);
    AcceptedIsDropped(a, b, StatusOf(w3.saved, a));
  }

  lemma StartPlanned()
    ensures forall n :: StatusOf(START.saved, n) == Planned
  {
  }

  lemma ExecNext(units: seq<string>, h: seq<Event>, k: nat)
    requires k < |h|
    ensures Exec(units, START, h[..k + 1]) == Step(units, Exec(units, START, h[..k]), h[k])
  {
    hide Step;
    assert h[..k + 1][..k] == h[..k];
  }

  /** Over every history of complete runs and clean-ups, no unit recorded as appended has a kept placeholder,
      exactly when no unit name continues another one. */
  lemma AppendedNeverPlaceholderIff(units: seq<string>)
    requires DistinctUnits(units)
    ensures (forall events :: PlainEvents(events) && CompleteEvents(events) ==> AppendedNeverPlaceholder(Exec(units, START, events)))
            <==> PrefixFree(units)
  {
    hide Exec, StatusOf, LosingHistory;
    if PrefixFree(units) {
      forall events | PlainEvents(events) && CompleteEvents(events)
        ensures AppendedNeverPlaceholder(Exec(units, START, events))
      {
        CompleteAgrees(units, events);
      }
    } else {
      var i, j :| 0 <= i < |units| && 0 <= j < |units| && units[i] != units[j] && units[i] <= units[j];
      var a, b := units[i], units[j];
      PrefixLosesBody(units, a, b);
      var w := Exec(units, START, LosingHistory(a, b));
      assert w.file.value[1] == Refused(a);
      assert HasKind(w.file, a, Placeholder);
      assert !AppendedNeverPlaceholder(w);
    }
  }

  // ---------------------------------------------------------------- runs that break

  /** The run keeps the reply behind a placeholder and the file can be written. */
  predicate KeepsPayload(a: Answer) {
    a.reply.Reject? && Trim(a.reply.payload) != "" && (a.io == Fine || a.io == LateFails)
  }

  /** The ledger has the unit as appended, its accepted body is not on disk, and the run keeps a rejected reply. */
  predicate Unseats(w: World, skip: bool, answers: map<string, Answer>, n: string) {
    StatusOf(w.saved, n) == Appended && !HasKind(w.file, n, Accepted) && !skip && KeepsPayload(AnswerTo(answers, n))
  }

  /** A visit to an appended unit puts a placeholder in its place exactly when the unit has no accepted body and a
      rejected reply is kept. */
  lemma OwnVisit(file: Option<seq<Block>>, n: string, skip: bool, a: Answer, units: seq<string>)
    requires SoundFile(file) && PrefixFree(units) && n in units && NamesIn(file, units) && !HasKind(file, n, Placeholder)
    ensures HasKind(VisitUnit(file, Appended, n, skip, a).0, n, Placeholder) <==>
            !HasKind(file, n, Accepted) && !skip && KeepsPayload(a)
  {
    hide SoundFile, PrefixFree, NamesIn, HasKind, Trim, Render;
    if HasKind(file, n, Accepted) {
      AcceptedIsSettled(file, n);
    } else if Settled(file, Appended, n) {
      SettledAccepted(file, Appended, n);
    } else {
      hide Settled;
      if skip && a.det.Some? {
        NoPlaceholderRendered(file, Block(Deterministic, n, a.det.value, {n}), a.io);
      }
      if a.reply.Accept? {
        NoPlaceholderRendered(file, Block(Accepted, n, a.reply.text, a.reply.marks), a.io);
      } else {
        PlaceholderRendered(file, Block(Placeholder, n, a.reply.payload, a.reply.marks), a.io, units);
      }
    }
  }

  lemma AcceptedIsSettled(file: Option<seq<Block>>, n: string)
    requires SoundFile(file) && HasKind(file, n, Accepted)
    ensures Settled(file, Appended, n)
  {
    var bs := file.value;
    var i :| 0 <= i < |bs| && bs[i].name == n && bs[i].kind == Accepted;
    forall j | 0 <= j < |bs| ensures n !in bs[j].marks {
      assert OwnMarks(bs[j]);
    }
  }

  lemma NoPlaceholderRendered(file: Option<seq<Block>>, blk: Block, io: IO)
    requires !blk.kind.Placeholder? && !HasKind(file, blk.name, Placeholder)
    ensures !HasKind(Render(file, blk, io).0, blk.name, Placeholder)
  {
    hide Cleared, HasMethod;
    if file.Some? {
      ClearedSubset(file.value, blk.name);
    }
  }

  lemma PlaceholderRendered(file: Option<seq<Block>>, blk: Block, io: IO, units: seq<string>)
    requires SoundFile(file) && PrefixFree(units) && blk.name in units && NamesIn(file, units)
    requires blk.kind.Placeholder? && !HasKind(file, blk.name, Placeholder) && !HasKind(file, blk.name, Accepted)
    ensures HasKind(Render(file, blk, io).0, blk.name, Placeholder) <==> io == Fine || io == LateFails
  {
    hide Cleared;
    if file.Some? {
      ClearedLeavesAccepted(file.value, blk.name, units);
    }
    var base := if file.Some? then Cleared(file.value, blk.name).0 else [];
    assert (base + [blk])[|base|] == blk;
  }

  /** What an interrupted run leaves behind a placeholder. */
  lemma {:induction false} BrokenPlaceholder(w: World, visited: seq<string>, skip: bool, answers: map<string, Answer>,
                                             units: seq<string>, n: string)
    requires Agree(w.file, w.saved, units) && PrefixFree(units) && PlainReplies(answers) && DistinctUnits(visited)
    requires (forall m :: m in visited ==> m in units) && StatusOf(w.saved, n) == Appended
    ensures var s := VisitAll(Begin(w), visited, skip, answers);
            && (HasKind(s.file, n, Placeholder) <==> n in visited && Unseats(w, skip, answers, n))
            && (n !in visited ==> StatusOf(s.ledger, n) == Appended && (HasKind(s.file, n, Accepted) <==> HasKind(w.file, n, Accepted)))
  {
    hide Visit, PrefixFree, HasKind, PlainReplies, KeepsPayload, SoundFile, NamesIn;
    if visited != [] {
      var k := |visited| - 1;
      var s, name := VisitAll(Begin(w), visited[..k], skip, answers), visited[k];
      BrokenPlaceholder(w, visited[..k], skip, answers, units, n);
      VisitAllAgrees(Begin(w), visited[..k], skip, answers, units);
      assert name in units && name !in visited[..k];
      if n == name {
        OwnVisit(s.file, n, skip, AnswerTo(answers, n), units);
        VisitedFile(s, n, skip, AnswerTo(answers, n));
      } else {
        KindStays(s, name, skip, AnswerTo(answers, name), n, Placeholder, units);
        KindStays(s, name, skip, AnswerTo(answers, name), n, Accepted, units);
        StatusOthers(s, name, skip, AnswerTo(answers, name), n);
      }
    }
  }

  lemma VisitedFile(r: Run, name: string, skip: bool, a: Answer)
    ensures Visit(r, name, skip, a).file == VisitUnit(r.file, StatusOf(r.ledger, name), name, skip, a).0
  {
    hide VisitUnit, Settled;
  }

  /** The units an event visits. */
  function Visited(units: seq<string>, visited: nat): seq<string> {
    units[..if visited < |units| then visited else |units|]
  }

  /** An interrupted run keeps file and saved ledger in agreement exactly when it unseats none of the units it
      came to. */
  lemma BrokenRunKeepsIff(units: seq<string>, w: World, skip: bool, visited: nat, answers: map<string, Answer>)
    requires Agree(w.file, w.saved, units) && PrefixFree(units) && DistinctUnits(units) && PlainReplies(answers) && !Refuses(w)
    ensures var w' := Step(units, w, BrokenRun(skip, visited, answers));
            Agree(w'.file, w'.saved, units) <==> forall n :: n in Visited(units, visited) ==> !Unseats(w, skip, answers, n)
  {
    hide VisitAll, PrefixFree, HasKind, PlainReplies, SoundFile, NamesIn, Unseats;
    var seen := Visited(units, visited);
    assert DistinctUnits(seen);
    VisitAllAgrees(Begin(w), seen, skip, answers, units);
    forall n | StatusOf(w.saved, n) == Appended
      ensures HasKind(VisitAll(Begin(w), seen, skip, answers).file, n, Placeholder) <==> n in seen && Unseats(w, skip, answers, n)
    {
      BrokenPlaceholder(w, seen, skip, answers, units, n);
    }
    assert forall n :: Unseats(w, skip, answers, n) ==> StatusOf(w.saved, n) == Appended by {
      UnseatsAppended(w, skip, answers);
    }
  }

  lemma UnseatsAppended(w: World, skip: bool, answers: map<string, Answer>)
    ensures forall n :: Unseats(w, skip, answers, n) ==> StatusOf(w.saved, n) == Appended
  {
  }

  /** Whatever the model replies and however the writes go, an interrupted run is harmless exactly when it makes no
      model calls, or every unit it comes to that the ledger has as appended has its accepted body on disk. */
  lemma BrokenRunHarmlessIff(units: seq<string>, w: World, skip: bool, visited: nat)
    requires Agree(w.file, w.saved, units) && PrefixFree(units) && DistinctUnits(units) && !Refuses(w)
    ensures (forall answers :: PlainReplies(answers) ==>
              var w' := Step(units, w, BrokenRun(skip, visited, answers)); Agree(w'.file, w'.saved, units))
            <==> skip || forall n :: n in Visited(units, visited) && StatusOf(w.saved, n) == Appended ==> HasKind(w.file, n, Accepted)
  {
    hide Step, Agree, PrefixFree, HasKind, Visited, KeepsPayload;
    forall answers | PlainReplies(answers)
      ensures var w' := Step(units, w, BrokenRun(skip, visited, answers));
              Agree(w'.file, w'.saved, units) <==> forall n :: n in Visited(units, visited) ==> !Unseats(w, skip, answers, n)
    {
      BrokenRunKeepsIff(units, w, skip, visited, answers);
    }
    if n :| !skip && n in Visited(units, visited) && StatusOf(w.saved, n) == Appended && !HasKind(w.file, n, Accepted) {
      var answers := map[n := REFUSED];
      RefusedKeeps();
      assert PlainReplies(answers) && Unseats(w, skip, answers, n);
    }
  }

  lemma RefusedKeeps()
    ensures KeepsPayload(REFUSED)
  {
    assert Trim("x") == "x";
  }

  /** The event is no interrupted run that unseats a unit. */
  ghost predicate Harmless(units: seq<string>, w: World, e: Event) {
    e.BrokenRun? && !Refuses(w) ==> forall n :: n in Visited(units, e.visited) ==> !Unseats(w, e.skip, e.answers, n)
  }

  lemma StepAgrees(units: seq<string>, w: World, e: Event)
    requires Agree(w.file, w.saved, units) && PrefixFree(units) && DistinctUnits(units) && PlainEvent(e)
    ensures var w' := Step(units, w, e); Agree(w'.file, w'.saved, units) <==> Harmless(units, w, e)
  {
    hide VisitAll, HasKind, PrefixFree, StatusOf, PlainReplies;
    match e
    case FullRun(skip, answers) =>
      if !Refuses(w) {
        VisitAllAgrees(Begin(w), units, skip, answers, units);
      }
    case BrokenRun(skip, visited, answers) =>
      if !Refuses(w) {
        BrokenRunKeepsIff(units, w, skip, visited, answers);
      }
    case DeleteTree => NoFileClean(w.saved);
    case ClearLedger => NothingAppended();
  }

  ghost predicate AgreesAfter(units: seq<string>, events: seq<Event>) {
    var w := Exec(units, START, events);
    Agree(w.file, w.saved, units)
  }

  /** File and ledger agree after every event of a history exactly when each of its interrupted runs was harmless
      where it happened. */
  lemma {:induction false} AgreesThroughoutIff(units: seq<string>, events: seq<Event>)
    requires PrefixFree(units) && DistinctUnits(units) && PlainEvents(events)
    ensures (forall k :: 0 <= k <= |events| ==> AgreesAfter(units, events[..k])) <==>
            forall k :: 0 <= k < |events| ==> Harmless(units, Exec(units, START, events[..k]), events[k])
  {
    hide PrefixFree, StatusOf, Agree, Harmless, PlainEvent, DistinctUnits, Step;
    assert events[..|events|] == events;
    if events == [] {
      StartAgrees(units);
    } else {
      var n := |events| - 1;
      forall k | 0 <= k <= n ensures events[..n][..k] == events[..k] {
      }
      AgreesThroughoutIff(units, events[..n]);
      if AgreesAfter(units, events[..n]) {
        StepAgrees(units, Exec(units, START, events[..n]), events[n]);
      }
      assert events[..n][..n] == events[..n];
    }
  }

  lemma StartAgrees(units: seq<string>)
    ensures Agree(START.file, START.saved, units)
  {
    hide StatusOf;
    NothingAppended();
  }

  /** A run that dies before the ledger is saved can do it with any unit: deleted after it was appended,
      regenerated, refused, and from then on taken for finished. */
  lemma BrokenRunLosesUnit(units: seq<string>, n: string)
    requires DistinctUnits(units) && n in units
    ensures var h := BrokenHistory(units, n);
            var w := Exec(units, START, h);
            && PlainEvents(h) && w.file == Some([Refused(n)]) && StatusOf(w.saved, n) == Appended
            && Settled(w.file, StatusOf(w.saved, n), n) && !AppendedNeverPlaceholder(w)
  {
    hide MergeInto, VisitUnit, Settled, StatusOf;
    var h := BrokenHistory(units, n);
    ExecNext(units, h, 0);
    ExecNext(units, h, 1);
    ExecNext(units, h, 2);
    assert h[..3] == h && h[..0] == [];
    StartPlanned();
    RunOnly(units, START, n, GOOD);
    AcceptedLands(n);
    var w := Exec(units, START, h[..2]);
    assert w.file == None && StatusOf(w.saved, n) == Appended;
    assert units[..|units|] == units;
    OnlyOne(Begin(w), units, n, REFUSED);
    LostUnit(n);
    var e := Exec(units, START, h);
    assert HasKind(e.file, n, Placeholder) by {
      assert e.file.value[0] == Refused(n);
    }
  }

  function BrokenHistory(units: seq<string>, n: string): seq<Event> {
    [AcceptOnly(n), DeleteTree, BrokenRun(false, |units|, map[n := REFUSED])]
  }

  /** With interrupted runs among the events, the invariant over all histories holds for the empty plan only. */
  lemma NeverPlaceholderIffEmpty(units: seq<string>)
    requires DistinctUnits(units)
    ensures (forall events :: PlainEvents(events) ==> AppendedNeverPlaceholder(Exec(units, START, events))) <==> units == []
  {
    hide Exec, BrokenHistory, StatusOf;
    if units == [] {
      forall events | PlainEvents(events) ensures AppendedNeverPlaceholder(Exec([], START, events)) {
        EmptyPlanSavesNothing(events);
        NothingAppended();
      }
    } else {
      BrokenRunLosesUnit(units, units[0]);
    }
  }

  lemma {:induction false} EmptyPlanSavesNothing(events: seq<Event>)
    ensures Exec([], START, events).saved == map[]
  {
    if events != [] {
      EmptyPlanSavesNothing(events[..|events| - 1]);
    }
  }

  lemma AcceptedLands(n: string)
    ensures VisitUnit(None, Planned, n, false, GOOD).1 == Appended
  {
  }

  lemma LostUnit(n: string)
    ensures VisitUnit(None, Appended, n, false, REFUSED).0 == Some([Refused(n)])
    ensures Settled(Some([Refused(n)]), Appended, n)
  {
    assert Trim("x") == "x";
    assert [] + [Refused(n)] == [Refused(n)];
    assert [Refused(n)][0].name == n;
  }

  // ---------------------------------------------------------------- calls to the model

  /** In agreement with its ledger, a unit costs a model call exactly when it is not appended with its accepted
      body on disk. */
  lemma CallsExactly(file: Option<seq<Block>>, ledger: Ledger, units: seq<string>, name: string)
    requires Agree(file, ledger, units)
    ensures CallsModel(file, StatusOf(ledger, name), name, false) <==>
            !(StatusOf(ledger, name) == Appended && HasKind(file, name, Accepted))
  {
    if file.Some? {
      if Settled(file, StatusOf(ledger, name), name) {
        SettledAccepted(file, StatusOf(ledger, name), name);
      }
    }
  }

  /** Once every unit is appended with its accepted body on disk, a run of either kind does nothing. */
  lemma {:induction false} ResumeIsIdle(r: Run, units: seq<string>, skip: bool, answers: map<string, Answer>)
    requires SoundFile(r.file) && r == Run(r.file, r.ledger, [], [], [])
    requires forall n :: n in units ==> StatusOf(r.ledger, n) == Appended && HasKind(r.file, n, Accepted)
    ensures VisitAll(r, units, skip, answers) == r
  {
    hide HasKind, VisitUnit, Settled;
    if units != [] {
      var k := |units| - 1;
      var name := units[k];
      ResumeIsIdle(r, units[..k], skip, answers);
      assert name in units;
      IdleVisit(r, name, skip, AnswerTo(answers, name));
    }
  }

  lemma IdleVisit(r: Run, name: string, skip: bool, a: Answer)
    requires SoundFile(r.file) && StatusOf(r.ledger, name) == Appended && HasKind(r.file, name, Accepted)
    ensures Visit(r, name, skip, a) == r
  {
    SettledStays(r.file, Appended, name, skip, a);
    hide VisitUnit;
    assert r.ledger[name := Appended] == r.ledger;
  }
}
