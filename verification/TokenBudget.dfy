/** Token accounting: prompt and output ceilings, and the character budget of one fragment. */
module TokenBudget {
  import opened Options
  import opened Text
  import opened Slicer
  import opened Packer

  datatype Budget = Budget(maxPromptTokens: int, maxOutputTokens: int, charsPerToken: int,
                           modelContextTokens: int, modelMaxOutputTokens: int, outputReserveTokens: int)

  const CHUNK_SAFETY_PCT := 70
  const CHUNK_FRAMING_CHARS := 600
  const MIN_FRAGMENT_CHARS := 2000

  /** Go's division by a positive divisor: rounds toward zero. */
  function GoDiv(a: int, b: int): int
    requires b > 0
  {
    if a >= 0 then a / b else -((-a) / b)
  }

  function Ratio(b: Budget): (r: int)
    ensures r > 0
  {
    if b.charsPerToken <= 0 then 4 else b.charsPerToken
  }

  /** Estimated tokens of a text of `n` characters. */
  function CountChars(b: Budget, n: nat): nat {
    if n == 0 then 0 else n / Ratio(b) + if n % Ratio(b) != 0 then 1 else 0
  }

  function Count(b: Budget, s: string): nat {
    CountChars(b, |s|)
  }

  predicate CheckInput(b: Budget, prompt: string) {
    Count(b, prompt) <= b.maxPromptTokens
  }

  predicate CheckOutputCap(b: Budget, response: string, limit: int) {
    Count(b, response) <= limit
  }

  function OutputCeiling(b: Budget, inputTokens: int): int {
    if b.modelContextTokens <= 0 then b.maxOutputTokens
    else
      var reserve := if b.outputReserveTokens < 0 then 0 else b.outputReserveTokens;
      var room := b.modelContextTokens - inputTokens - reserve;
      var capped := if b.modelMaxOutputTokens > 0 && room > b.modelMaxOutputTokens then b.modelMaxOutputTokens else room;
      if capped < 1 then 1 else capped
  }

  lemma MulStep(k: int, m: int, r: int)
    requires k < m && r > 0
    ensures k * r + r <= m * r
  {
    var d := m - k - 1;
    assert d * r >= 0;
    assert m * r == (k + 1 + d) * r == k * r + r + d * r;
  }

  /** The estimate is the least number of tokens whose characters hold the text. */
  lemma CountLeast(b: Budget, n: nat, k: int)
    ensures CountChars(b, n) <= k <==> k >= 0 && n <= k * Ratio(b)
  {
    var r := Ratio(b);
    var q := n / r;
    assert n == q * r + n % r && 0 <= n % r < r;
    if k > q {
      MulStep(q, k, r);
    } else if k < q && k >= 0 {
      MulStep(k, q, r);
    }
  }

  function Reserve(b: Budget): nat {
    if b.outputReserveTokens < 0 then 0 else b.outputReserveTokens
  }

  /** Every response the dynamic ceiling lets through fits the model's context beside its prompt and the
      reserve, exactly when the prompt leaves room for at least one token. */
  lemma ContextFitsIff(b: Budget, prompt: string)
    requires b.modelContextTokens > 0
    ensures (forall response :: CheckOutputCap(b, response, OutputCeiling(b, Count(b, prompt))) ==>
              Count(b, prompt) + Count(b, response) + Reserve(b) <= b.modelContextTokens)
            <==> Count(b, prompt) + Reserve(b) < b.modelContextTokens
  {
    CountLeast(b, 1, 1);
    assert Count(b, "x") <= 1 && Count(b, "x") > 0 by { CountLeast(b, 1, 0); }
    if Count(b, prompt) + Reserve(b) >= b.modelContextTokens {
      assert OutputCeiling(b, Count(b, prompt)) == 1;
      assert CheckOutputCap(b, "x", OutputCeiling(b, Count(b, prompt)));
    }
  }

  // ---------------------------------------------------------------- prompt extras

  /** A text whose occurrence makes a fragment carry an item; some must not continue a word. */
  datatype Needle = Needle(text: string, wordStart: bool)

  /** One line of prompt that a fragment carries when it mentions any of the needles. */
  datatype Item = Item(cost: nat, needles: seq<Needle>)

  predicate OccursAt(text: string, nd: Needle, i: nat) {
    HasAt(text, i, nd.text) && (nd.wordStart && 0 < i <= |text| ==> !IsWordChar(text[i - 1]))
  }

  predicate Occurs(text: string, nd: Needle) {
    exists i: nat :: i <= |text| && OccursAt(text, nd, i)
  }

  predicate Mentions(text: string, item: Item) {
    exists k :: 0 <= k < |item.needles| && Occurs(text, item.needles[k])
  }

  /** Characters of the items a text mentions. */
  function Extras(items: seq<Item>, text: string): nat {
    if items == [] then 0
    else Extras(items[..|items| - 1], text) +
         if Mentions(text, items[|items| - 1]) then items[|items| - 1].cost else 0
  }

  /** A legacy constant `NAME = value`, listed when NAME occurs. */
  function ConstantItem(line: string): Item {
    Item(|line| + 6, [Needle(KeyOf(line), false)])
  }

  /** An error code, listed when its key occurs. */
  function CodeItem(line: string): Item {
    Item(|line| + 2, [Needle(KeyOf(line), false)])
  }

  function KeyOf(line: string): string {
    match IndexFrom(line, 0, " = ")
    case Some(i) => if i > 0 then line[..i] else line
    case None => line
  }

  /** A helper line `fn(...)`, with the Go call it maps to after an arrow if it has one. */
  function HelperItem(line: string): Item {
    Item(|line| + 6, [Needle(UpToParen(line), false)] + ArrowNeedles(line))
  }

  function UpToParen(s: string): string {
    match IndexFrom(s, 0, "(")
    case Some(j) => s[..j]
    case None => s
  }

  function ArrowNeedles(line: string): seq<Needle> {
    match IndexFrom(line, 0, "\U{2192} s.")
    case None => []
    case Some(i) =>
      var rest := line[i + 2..];
      match IndexFrom(rest, 0, "(")
      case None => []
      case Some(j) => if j > 0 then [Needle(rest[..j], false)] else []
  }

  function StubItem(fn: string): Item {
    Item(|fn| + 48, [Needle(fn, false)])
  }

  /** A store-method signature, listed when the method is called on the store or as a bare helper. */
  function SignatureItem(line: string, receiver: string, name: string): Item {
    Item(|line| + 1, [Needle(receiver + name + "(", false), Needle("s." + name + "(", true)])
  }

  /** All items of an endpoint. */
  function ItemsOf(signatures: seq<(string, string)>, receiver: string, constants: seq<string>, codes: seq<string>,
                   helpers: seq<string>, stubs: seq<string>): seq<Item> {
    seq(|signatures|, k requires 0 <= k < |signatures| => SignatureItem(signatures[k].0, receiver, signatures[k].1)) +
    seq(|constants|, k requires 0 <= k < |constants| => ConstantItem(constants[k])) +
    seq(|codes|, k requires 0 <= k < |codes| => CodeItem(codes[k])) +
    seq(|helpers|, k requires 0 <= k < |helpers| => HelperItem(helpers[k])) +
    seq(|stubs|, k requires 0 <= k < |stubs| => StubItem(stubs[k]))
  }

  ghost predicate LineItem(item: Item) {
    forall k :: 0 <= k < |item.needles| ==> OneLine(item.needles[k].text)
  }

  ghost predicate LineItems(items: seq<Item>) {
    forall k :: 0 <= k < |items| ==> LineItem(items[k])
  }

  lemma HelperLineItem(line: string)
    requires OneLine(line)
    ensures LineItem(HelperItem(line))
  {
  }

  lemma SignatureLineItem(line: string, receiver: string, name: string)
    requires OneLine(receiver) && OneLine(name)
    ensures LineItem(SignatureItem(line, receiver, name))
  {
    assert OneLine(receiver + name + "(") && OneLine("s." + name + "(");
  }

  /** One-line inputs give items whose needles have no newline. */
  lemma ItemsAreLineLocal(signatures: seq<(string, string)>, receiver: string, constants: seq<string>,
                          codes: seq<string>, helpers: seq<string>, stubs: seq<string>)
    requires OneLine(receiver) && AllOneLine(constants) && AllOneLine(codes) && AllOneLine(helpers) && AllOneLine(stubs)
    requires forall k :: 0 <= k < |signatures| ==> OneLine(signatures[k].1)
    ensures LineItems(ItemsOf(signatures, receiver, constants, codes, helpers, stubs))
  {
    hide LineItem, SignatureItem, ConstantItem, CodeItem, HelperItem, StubItem;
    forall k | 0 <= k < |signatures| ensures LineItem(SignatureItem(signatures[k].0, receiver, signatures[k].1)) {
      SignatureLineItem(signatures[k].0, receiver, signatures[k].1);
    }
    forall s | OneLine(s) ensures LineItem(ConstantItem(s)) && LineItem(CodeItem(s)) && LineItem(HelperItem(s)) && LineItem(StubItem(s)) {
      HelperLineItem(s);
      PlainLineItems(s);
    }
  }

  lemma PlainLineItems(s: string)
    requires OneLine(s)
    ensures LineItem(ConstantItem(s)) && LineItem(CodeItem(s)) && LineItem(StubItem(s))
  {
  }

  lemma OccursLeft(u: string, v: string, nd: Needle, i: nat)
    requires i + |nd.text| <= |u|
    ensures OccursAt(u, nd, i) <==> OccursAt(u + "\n" + v, nd, i)
  {
    assert (u + "\n" + v)[i..i + |nd.text|] == u[i..i + |nd.text|];
  }

  lemma OccursRight(u: string, v: string, nd: Needle, i: nat)
    requires i + |nd.text| <= |v|
    ensures OccursAt(v, nd, i) <==> OccursAt(u + "\n" + v, nd, |u| + 1 + i)
  {
    var w, j := u + "\n" + v, |u| + 1 + i;
    assert w[j..j + |nd.text|] == v[i..i + |nd.text|];
    assert w[j - 1] == if i == 0 then '\n' else v[i - 1];
  }

  lemma NotAcross(u: string, v: string, nd: Needle, i: nat)
    requires OneLine(nd.text) && OccursAt(u + "\n" + v, nd, i)
    ensures i + |nd.text| <= |u| || i > |u|
  {
    var w := u + "\n" + v;
    assert w[|u|] == '\n';
    assert nd.text == w[i..i + |nd.text|];
    assert forall k :: 0 <= k < |nd.text| ==> nd.text[k] == w[i + k];
  }

  /** A newline-free needle occurs in two joined texts exactly when it occurs in one of them. */
  lemma OccursInJoin(u: string, v: string, nd: Needle)
    requires OneLine(nd.text)
    ensures Occurs(u + "\n" + v, nd) <==> Occurs(u, nd) || Occurs(v, nd)
  {
    var w := u + "\n" + v;
    if i: nat :| i <= |u| && OccursAt(u, nd, i) {
      OccursLeft(u, v, nd, i);
      hide OccursAt;
      assert Occurs(w, nd);
    }
    if i: nat :| i <= |v| && OccursAt(v, nd, i) {
      OccursRight(u, v, nd, i);
      hide OccursAt;
      assert Occurs(w, nd);
    }
    if i: nat :| i <= |w| && OccursAt(w, nd, i) {
      NotAcross(u, v, nd, i);
      if i <= |u| {
        OccursLeft(u, v, nd, i);
      } else {
        OccursRight(u, v, nd, i - |u| - 1);
      }
      hide OccursAt;
      assert Occurs(u, nd) || Occurs(v, nd);
    }
  }

  /** Only newline-free needles have that property. */
  lemma LineLocalIff(nd: Needle)
    ensures (forall u, v :: Occurs(u + "\n" + v, nd) ==> Occurs(u, nd) || Occurs(v, nd)) <==> OneLine(nd.text)
  {
    if OneLine(nd.text) {
      forall u, v ensures Occurs(u + "\n" + v, nd) ==> Occurs(u, nd) || Occurs(v, nd) {
        OccursInJoin(u, v, nd);
      }
    } else {
      var i :| 0 <= i < |nd.text| && nd.text[i] == '\n';
      var u, v := nd.text[..i], nd.text[i + 1..];
      var w := u + "\n" + v;
      assert w == nd.text;
      assert w[0..0 + |nd.text|] == nd.text;
      assert OccursAt(w, nd, 0);
      assert Occurs(u + "\n" + v, nd);
      assert !Occurs(u, nd) && !Occurs(v, nd);
    }
  }

  lemma MentionsInJoin(u: string, v: string, item: Item)
    requires LineItem(item)
    ensures Mentions(u + "\n" + v, item) <==> Mentions(u, item) || Mentions(v, item)
  {
    hide Occurs;
    forall k | 0 <= k < |item.needles|
      ensures Occurs(u + "\n" + v, item.needles[k]) <==> Occurs(u, item.needles[k]) || Occurs(v, item.needles[k])
    {
      OccursInJoin(u, v, item.needles[k]);
    }
  }

  /** Joining two texts never adds to their extras, and keeps the larger of the two. */
  lemma {:induction false} ExtrasSubadditive(items: seq<Item>, u: string, v: string)
    requires LineItems(items)
    ensures Extras(items, u + "\n" + v) <= Extras(items, u) + Extras(items, v)
    ensures Extras(items, u + "\n" + v) >= Extras(items, u) && Extras(items, u + "\n" + v) >= Extras(items, v)
  {
    hide Mentions, LineItem;
    if items != [] {
      var n := |items| - 1;
      ExtrasSubadditive(items[..n], u, v);
      MentionsInJoin(u, v, items[n]);
    }
  }

  function Charge(items: seq<Item>): string -> nat {
    text => Extras(items, text)
  }

  /** A fragment with its own extras never outweighs what its units were charged. */
  lemma {:induction false} ChargeCovers(items: seq<Item>, group: seq<string>)
    requires LineItems(items) && group != []
    ensures |JoinLines(group)| + 1 + Extras(items, JoinLines(group)) <= Mass(Charge(items), group)
  {
    hide Extras;
    var n := |group| - 1;
    var last := group[n];
    if n == 0 {
      assert group[..0] == [] && Mass(Charge(items), []) == 0;
      assert Mass(Charge(items), group) == Weight(Charge(items), last);
    } else {
      ChargeCovers(items, group[..n]);
      assert group == group[..n] + [last];
      JoinConcat(group[..n], [last]);
      assert JoinLines([last]) == last;
      ExtrasSubadditive(items, JoinLines(group[..n]), last);
    }
  }

  // ---------------------------------------------------------------- the slice budget

  function ChunkTokens(b: Budget): (t: int)
    ensures t >= 1
  {
    var tokens := GoDiv(b.maxPromptTokens * CHUNK_SAFETY_PCT, 100);
    if tokens < 1 then 1 else tokens
  }

  /** Tokens of output a fragment may need: three quarters of the output ceiling. */
  function OutputShare(b: Budget): int {
    GoDiv(b.maxOutputTokens * 3, 4)
  }

  /** Characters a fragment may weigh beside a contract and scenario notes of given lengths; none when too
      few are left. */
  function SliceBudget(b: Budget, contractChars: nat, noteChars: nat): Option<int> {
    var chunkChars := ChunkTokens(b) * b.charsPerToken;
    var slice := chunkChars - contractChars - noteChars - CHUNK_FRAMING_CHARS;
    var outputRoom := OutputShare(b) * b.charsPerToken;
    var capped := if outputRoom > 0 && slice > outputRoom then outputRoom else slice;
    if capped < MIN_FRAGMENT_CHARS then None else Some(capped)
  }

  lemma PositiveFactor(a: int, r: int)
    requires a >= 1
    ensures a * r > 0 <==> r > 0
  {
    if r <= 0 {
      assert a * (-r) >= 0;
    }
  }

  /** A fragment's text with all that goes with it keeps to the chunk's share of the prompt ceiling, and alone to its
      share of the output ceiling. */
  ghost predicate WithinCeilings(b: Budget, contractChars: nat, noteChars: nat, items: seq<Item>, text: string) {
    && CountChars(b, contractChars + noteChars + CHUNK_FRAMING_CHARS + |text| + Extras(items, text)) <= ChunkTokens(b)
    && (OutputShare(b) > 0 ==> Count(b, text) <= OutputShare(b))
  }

  /** Every fragment within the slice budget, together with its extras, the contract, the notes and the
      framing, is estimated at no more than the chunk's share of the prompt ceiling, and by itself at no
      more than three quarters of the output ceiling when that is positive. */
  lemma FragmentWithinBudget(b: Budget, contractChars: nat, noteChars: nat, items: seq<Item>, group: seq<string>)
    requires LineItems(items) && group != []
    requires SliceBudget(b, contractChars, noteChars).Some?
    requires Mass(Charge(items), group) <= SliceBudget(b, contractChars, noteChars).value
    ensures WithinCeilings(b, contractChars, noteChars, items, JoinLines(group))
  {
    hide JoinLines, Extras, Mass, CountChars, GoDiv;
    ChargeCovers(items, group);
    var text := JoinLines(group);
    PositiveFactor(ChunkTokens(b), b.charsPerToken);
    assert b.charsPerToken > 0 by {
      if OutputShare(b) > 0 {
        PositiveFactor(OutputShare(b), b.charsPerToken);
      }
    }
    CountLeast(b, contractChars + noteChars + CHUNK_FRAMING_CHARS + |text| + Extras(items, text), ChunkTokens(b));
    if OutputShare(b) > 0 {
      PositiveFactor(OutputShare(b), b.charsPerToken);
      CountLeast(b, |text|, OutputShare(b));
    }
  }

  lemma GroupsWithinCeilings(units: seq<string>, budget: int, b: Budget, contractChars: nat, noteChars: nat,
                              items: seq<Item>, k: nat)
    requires LineItems(items) && SliceBudget(b, contractChars, noteChars) == Some(budget)
    requires PacksWithin(units, budget, Charge(items)) && k < |Groups(units, budget, Charge(items))|
    ensures WithinCeilings(b, contractChars, noteChars, items, JoinLines(Groups(units, budget, Charge(items))[k]))
  {
    BudgetIsLarge(b, contractChars, noteChars);
    hide PacksWithin, WithinCeilings, SliceBudget, LineItems, Charge, Groups, JoinLines, Mass;
    GroupWithin(units, budget, Charge(items), k);
    FragmentWithinBudget(b, contractChars, noteChars, items, Groups(units, budget, Charge(items))[k]);
  }

  /** From the view to the ceilings: every fragment of a view keeps to them, when its units pack within the slice
      budget. */
  lemma ViewWithinCeilings(view: string, b: Budget, contractChars: nat, noteChars: nat, items: seq<Item>)
    requires LineItems(items) && SliceBudget(b, contractChars, noteChars).Some?
    requires PacksWithin(Glue(UnitsFrom(SplitLines(view), 0)), SliceBudget(b, contractChars, noteChars).value, Charge(items))
    ensures var chunks := Fragments(view, SliceBudget(b, contractChars, noteChars).value, Charge(items));
            forall k :: 0 <= k < |chunks| ==> WithinCeilings(b, contractChars, noteChars, items, chunks[k])
  {
    var units, budget, sig := Glue(UnitsFrom(SplitLines(view), 0)), SliceBudget(b, contractChars, noteChars).value, Charge(items);
    var chunks := Fragments(view, budget, sig);
    hide PacksWithin, WithinCeilings, Glue, UnitsFrom, SplitLines, JoinLines, Groups, SliceBudget, LineItems, Charge;
    forall k: nat | k < |chunks| ensures WithinCeilings(b, contractChars, noteChars, items, chunks[k]) {
      GroupsWithinCeilings(units, budget, b, contractChars, noteChars, items, k);
    }
  }

  lemma BudgetIsLarge(b: Budget, contractChars: nat, noteChars: nat)
    requires SliceBudget(b, contractChars, noteChars).Some?
    ensures SliceBudget(b, contractChars, noteChars).value >= MIN_FRAGMENT_CHARS
  {
  }

  /** The chunk's share is seventy percent of the prompt ceiling exactly when that ceiling is at least two tokens. */
  lemma ShareIff(b: Budget)
    ensures ChunkTokens(b) == GoDiv(b.maxPromptTokens * CHUNK_SAFETY_PCT, 100) <==> b.maxPromptTokens >= 2
  {
  }

  lemma ShareWithinCeiling(b: Budget)
    ensures ChunkTokens(b) <= b.maxPromptTokens <==> b.maxPromptTokens >= 1
  {
  }

  /** The whole prompt of such a fragment passes the input check whenever its framing keeps within the allowance,
      exactly when the prompt ceiling is positive. */
  lemma ChunkPromptsPass(b: Budget, contractChars: nat, noteChars: nat, items: seq<Item>, group: seq<string>)
    requires LineItems(items) && group != []
    requires SliceBudget(b, contractChars, noteChars).Some?
    requires Mass(Charge(items), group) <= SliceBudget(b, contractChars, noteChars).value
    ensures var text := JoinLines(group);
            (forall prompt: string ::
              |prompt| <= contractChars + noteChars + CHUNK_FRAMING_CHARS + |text| + Extras(items, text) ==> CheckInput(b, prompt))
            <==> b.maxPromptTokens >= 1
  {
    var text := JoinLines(group);
    var room := contractChars + noteChars + CHUNK_FRAMING_CHARS + |text| + Extras(items, text);
    FragmentWithinBudget(b, contractChars, noteChars, items, group);
    ShareWithinCeiling(b);
    CountLeast(b, |"x"|, b.maxPromptTokens);
    hide JoinLines, Extras, Mass, CountChars, GoDiv, ChunkTokens, SliceBudget;
    if b.maxPromptTokens >= 1 {
      forall prompt: string | |prompt| <= room ensures CheckInput(b, prompt) {
        CountLeast(b, room, ChunkTokens(b));
        CountLeast(b, |prompt|, ChunkTokens(b));
      }
    } else {
      assert !CheckInput(b, "x") by { CountLeast(b, |"x"|, 0); }
    }
  }
}
