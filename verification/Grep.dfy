/**
 The regular-expression matcher of grep, against a denotation of its patterns:
 literals, `.`, `c*`, a leading `^` and a final `$`. Strings hold no NUL; the end of
 the C string is the end of the sequence.
 */
module Grep {

  // ---------------------------------------------------------- denotation

  datatype Item = One(c: char) | Many(c: char)
  datatype Pattern = Pattern(items: seq<Item>, atEnd: bool)

  /** The pattern that a string denotes, apart from a leading `^`. */
  function Meaning(re: string): Pattern {
    if re == "" then Pattern([], false)
    else if |re| > 1 && re[1] == '*' then
      var rest := Meaning(re[2..]); rest.(items := [Many(re[0])] + rest.items)
    else if re == "$" then Pattern([], true)
    else
      var rest := Meaning(re[1..]); rest.(items := [One(re[0])] + rest.items)
  }

  predicate Fits(c: char, x: char) { c == '.' || c == x }

  predicate AllFit(c: char, s: string) {
    forall i :: 0 <= i < |s| ==> Fits(c, s[i])
  }

  /** The strings that a sequence of items stands for. */
  ghost predicate Denotes(items: seq<Item>, s: string)
    decreases |items|
  {
    if items == [] then s == ""
    else match items[0]
      case One(c) => s != "" && Fits(c, s[0]) && Denotes(items[1..], s[1..])
      case Many(c) => exists j {:trigger s[j..]} :: 0 <= j <= |s| && AllFit(c, s[..j]) && Denotes(items[1..], s[j..])
  }

  /** The part of `text` from j to k is an occurrence of the pattern. */
  ghost predicate Occurs(p: Pattern, text: string, j: int, k: int) {
    0 <= j <= k <= |text| && Denotes(p.items, text[j..k]) && (p.atEnd ==> k == |text|)
  }

  // ------------------------------------------------------------- matcher

  function Here(re: string, text: string): bool
    decreases |re|, |text|, 0
  {
    if re == "" then true
    else if |re| > 1 && re[1] == '*' then Star(re[0], re[2..], text)
    else if re == "$" then text == ""
    else text != "" && (re[0] == '.' || re[0] == text[0]) && Here(re[1..], text[1..])
  }

  function Star(c: char, re: string, text: string): bool
    decreases |re|, |text|, 1
  {
    Here(re, text) || (text != "" && (c == '.' || c == text[0]) && Star(c, re, text[1..]))
  }

  /** `matchhere`. */
  method MatchHere(re: string, text: string) returns (r: bool)
    ensures r == Here(re, text)
    decreases |re|, |text|, 0
  {
    if re == "" {
      return true;
    }
    if |re| > 1 && re[1] == '*' {
      r := MatchStar(re[0], re[2..], text);
      return;
    }
    if re[0] == '$' && |re| == 1 {
      return text == "";
    }
    if text != "" && (re[0] == '.' || re[0] == text[0]) {
      r := MatchHere(re[1..], text[1..]);
      return;
    }
    return false;
  }

  /** `matchstar`: zero or more c, then the rest; the shortest run first. */
  method MatchStar(c: char, re: string, text: string) returns (r: bool)
    ensures r == Star(c, re, text)
    decreases |re|, |text|, 1
  {
    var i := 0;
    while true
      invariant 0 <= i <= |text|
      invariant Star(c, re, text) == Star(c, re, text[i..])
      decreases |text| - i
    {
      r := MatchHere(re, text[i..]);
      if r {
        return;
      }
      if i == |text| || !(text[i] == c || c == '.') {
        return false;
      }
      assert text[i..][1..] == text[i + 1..];
      i := i + 1;
    }
  }

  /** `match`: 1 exactly when the pattern occurs somewhere, or at the start after `^`. */
  method Match(re: string, text: string) returns (r: bool)
    ensures re != "" && re[0] == '^' ==> (r <==> exists k :: Occurs(Meaning(re[1..]), text, 0, k))
    ensures re == "" || re[0] != '^' ==> (r <==> exists j, k :: Occurs(Meaning(re), text, j, k))
  {
    if re != "" && re[0] == '^' {
      r := MatchHere(re[1..], text);
      HereIffOccurs(re[1..], text, 0);
      return;
    }
    var i := 0;
    while true
      invariant 0 <= i <= |text|
      invariant forall j, k :: 0 <= j < i ==> !Occurs(Meaning(re), text, j, k)
      decreases |text| - i
    {
      r := MatchHere(re, text[i..]);
      HereIffOccurs(re, text, i);
      if r || i == |text| {
        return;
      }
      i := i + 1;
    }
  }

  // ---------------------------------------------------------- agreement

  lemma {:induction false} StarIffRun(c: char, re: string, text: string)
    ensures Star(c, re, text) <==>
            exists j {:trigger text[j..]} :: 0 <= j <= |text| && AllFit(c, text[..j]) && Here(re, text[j..])
    decreases |text|
  {
    assert text[0..] == text && AllFit(c, text[..0]);
    if text != "" {
      StarIffRun(c, re, text[1..]);
      forall j | 1 <= j <= |text|
        ensures text[1..][j - 1..] == text[j..]
        ensures AllFit(c, text[..j]) <==> Fits(c, text[0]) && AllFit(c, text[1..][..j - 1])
      {
        assert text[..j] == [text[0]] + text[1..][..j - 1];
      }
      if Star(c, re, text) && !Here(re, text) {
        var j :| 0 <= j <= |text[1..]| && AllFit(c, text[1..][..j]) && Here(re, text[1..][j..]);
        assert text[1..][(j + 1) - 1..] == text[j + 1..];
        assert text[j + 1..] == text[1..][j..];
      }
      if j :| 0 <= j <= |text| && AllFit(c, text[..j]) && Here(re, text[j..]) {
        if j > 0 {
          assert text[1..][j - 1..] == text[j..];
        }
      }
    }
  }

  /** The pattern has an occurrence at the start of the text. */
  ghost predicate Prefixed(p: Pattern, text: string) {
    exists k :: Occurs(p, text, 0, k)
  }

  /** Matching at a place is having an occurrence that starts there. */
  lemma {:induction false} HereIffPrefix(re: string, text: string)
    ensures Here(re, text) <==> Prefixed(Meaning(re), text)
    decreases |re|, |text|
  {
    if re == "" {
      assert Occurs(Meaning(re), text, 0, 0);
    } else if |re| > 1 && re[1] == '*' {
      ManyIffPrefix(re[0], re[2..], text);
    } else if re == "$" {
      assert text == "" ==> Occurs(Meaning(re), text, 0, 0);
    } else if text != "" {
      HereIffPrefix(re[1..], text[1..]);
      OnePrefix(re[0], Meaning(re[1..]), text);
    }
  }

  lemma OnePrefix(c: char, rest: Pattern, text: string)
    requires text != ""
    ensures Prefixed(rest.(items := [One(c)] + rest.items), text) <==> Fits(c, text[0]) && Prefixed(rest, text[1..])
  {
    var p := rest.(items := [One(c)] + rest.items);
    assert p.items[1..] == rest.items;
    if k :| Occurs(rest, text[1..], 0, k) {
      assert text[0..k + 1][1..] == text[1..][0..k];
      assert Fits(c, text[0]) ==> Occurs(p, text, 0, k + 1);
    }
    if k :| Occurs(p, text, 0, k) {
      assert text[0..k][1..] == text[1..][0..k - 1];
      assert Occurs(rest, text[1..], 0, k - 1);
    }
  }

  lemma {:induction false} ManyIffPrefix(c: char, re: string, text: string)
    ensures var rest := Meaning(re);
            Star(c, re, text) <==> Prefixed(rest.(items := [Many(c)] + rest.items), text)
    decreases |re| + 2, |text|, 0
  {
    var rest := Meaning(re);
    StarIffRun(c, re, text);
    if j :| 0 <= j <= |text| && AllFit(c, text[..j]) && Here(re, text[j..]) {
      HereIffPrefix(re, text[j..]);
      ManyPrefix(c, rest, text, j);
    }
    if Prefixed(rest.(items := [Many(c)] + rest.items), text) {
      var j := ManyRun(c, rest, text);
      HereIffPrefix(re, text[j..]);
    }
  }

  lemma ManyPrefix(c: char, rest: Pattern, text: string, j: nat)
    requires j <= |text| && AllFit(c, text[..j]) && Prefixed(rest, text[j..])
    ensures Prefixed(rest.(items := [Many(c)] + rest.items), text)
  {
    var p := rest.(items := [Many(c)] + rest.items);
    assert p.items[1..] == rest.items;
    var k :| Occurs(rest, text[j..], 0, k);
    var s := text[0..j + k];
    assert s[..j] == text[..j] && s[j..] == text[j..][0..k];
    assert Occurs(p, text, 0, j + k);
  }

  lemma ManyRun(c: char, rest: Pattern, text: string) returns (j: nat)
    requires Prefixed(rest.(items := [Many(c)] + rest.items), text)
    ensures j <= |text| && AllFit(c, text[..j]) && Prefixed(rest, text[j..])
  {
    var p := rest.(items := [Many(c)] + rest.items);
    assert p.items[1..] == rest.items;
    var k :| Occurs(p, text, 0, k);
    var s := text[0..k];
    assert exists j {:trigger s[j..]} :: 0 <= j <= |s| && AllFit(c, s[..j]) && Denotes(rest.items, s[j..]);
    j :| 0 <= j <= |s| && AllFit(c, s[..j]) && Denotes(rest.items, s[j..]);
    assert s[..j] == text[..j] && s[j..] == text[j..][0..k - j];
    assert Occurs(rest, text[j..], 0, k - j);
  }

  lemma HereIffOccurs(re: string, text: string, i: nat)
    requires i <= |text|
    ensures Here(re, text[i..]) <==> exists k :: Occurs(Meaning(re), text, i, k)
  {
    HereIffPrefix(re, text[i..]);
    var p := Meaning(re);
    if k :| Occurs(p, text[i..], 0, k) {
      assert text[i..][0..k] == text[i..i + k];
      assert Occurs(p, text, i, i + k);
    }
    if k :| Occurs(p, text, i, k) {
      assert text[i..][0..k - i] == text[i..k];
      assert Occurs(p, text[i..], 0, k - i);
    }
  }
}
