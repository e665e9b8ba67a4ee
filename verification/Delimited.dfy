/** Splitting at a separator character and at white space, as `strings.Split` and `strings.Fields` do. */
module Delimited {
  import opened Text

  predicate Without(s: string, sep: char) {
    forall i :: 0 <= i < |s| ==> s[i] != sep
  }

  function NextSep(s: string, sep: char, i: nat): (e: nat)
    requires i <= |s|
    ensures i <= e <= |s| && (e < |s| ==> s[e] == sep) && forall j :: i <= j < e ==> s[j] != sep
    decreases |s| - i
  {
    if i == |s| || s[i] == sep then i else NextSep(s, sep, i + 1)
  }

  function SplitOn(s: string, sep: char): (parts: seq<string>)
    ensures parts != []
    decreases |s|
  {
    var e := NextSep(s, sep, 0);
    if e == |s| then [s] else [s[..e]] + SplitOn(s[e + 1..], sep)
  }

  function JoinOn(parts: seq<string>, sep: char): string {
    if parts == [] then ""
    else if |parts| == 1 then parts[0]
    else parts[0] + [sep] + JoinOn(parts[1..], sep)
  }

  ghost predicate AllWithout(parts: seq<string>, sep: char) {
    forall k :: 0 <= k < |parts| ==> Without(parts[k], sep)
  }

  lemma FirstPart(a: string, sep: char, rest: string)
    requires Without(a, sep)
    ensures SplitOn(a + [sep] + rest, sep) == [a] + SplitOn(rest, sep)
  {
    var s := a + [sep] + rest;
    assert forall j :: 0 <= j < |a| ==> s[j] == a[j];
    assert s[|a|] == sep;
    assert NextSep(s, sep, 0) == |a|;
    assert s[..|a|] == a && s[|a| + 1..] == rest;
  }

  /** Splitting what was joined gives the parts, when none holds the separator. */
  lemma {:induction false} SplitJoinOn(parts: seq<string>, sep: char)
    requires parts != [] && AllWithout(parts, sep)
    ensures SplitOn(JoinOn(parts, sep), sep) == parts
  {
    if |parts| == 1 {
      assert NextSep(parts[0], sep, 0) == |parts[0]|;
      assert parts == [parts[0]];
    } else {
      SplitJoinOn(parts[1..], sep);
      FirstPart(parts[0], sep, JoinOn(parts[1..], sep));
      assert parts == [parts[0]] + parts[1..];
    }
  }

  // ---------------------------------------------------------------- words

  function WordEnd(s: string, i: nat): (e: nat)
    requires i <= |s|
    ensures i <= e <= |s| && (e < |s| ==> IsSpace(s[e])) && forall j :: i <= j < e ==> !IsSpace(s[j])
    decreases |s| - i
  {
    if i == |s| || IsSpace(s[i]) then i else WordEnd(s, i + 1)
  }

  function Words(s: string): seq<string>
    decreases |s|
  {
    var t := TrimLeft(s);
    if t == "" then []
    else
      var e := WordEnd(t, 0);
      [t[..e]] + Words(t[e..])
  }

  predicate IsWord(s: string) {
    s != "" && forall i :: 0 <= i < |s| ==> !IsSpace(s[i])
  }

  lemma FirstWord(w: string, rest: string)
    requires IsWord(w) && (rest == "" || IsSpace(rest[0]))
    ensures Words(w + rest) == [w] + Words(rest)
  {
    var s := w + rest;
    assert s[0] == w[0] && !IsSpace(w[0]);
    assert TrimLeft(s) == s;
    assert forall j :: 0 <= j < |w| ==> s[j] == w[j];
    assert rest != "" ==> s[|w|] == rest[0];
    assert WordEnd(s, 0) == |w|;
    assert s[..|w|] == w && s[|w|..] == rest;
  }

  /** The words of words joined by blanks. */
  lemma {:induction false} WordsJoined(words: seq<string>)
    requires forall k :: 0 <= k < |words| ==> IsWord(words[k])
    ensures Words(JoinOn(words, ' ')) == words
  {
    if |words| == 1 {
      assert words[0] + "" == words[0];
      FirstWord(words[0], "");
      assert words == [words[0]];
    } else if |words| > 1 {
      var rest := JoinOn(words[1..], ' ');
      WordsJoined(words[1..]);
      assert JoinOn(words, ' ') == words[0] + ([' '] + rest);
      FirstWord(words[0], [' '] + rest);
      assert ([' '] + rest)[1..] == rest;
      assert TrimLeft([' '] + rest) == TrimLeft(rest);
      assert words == [words[0]] + words[1..];
    }
  }
}
