/** The regular expressions of grep (xv6/grep.c): the matcher agrees with a declarative reading of
    the pattern as literals, dots, stars, a leading ^ and a trailing $. Strings are without their
    terminating NUL. */
module Grep {

  /** One(c) matches a character, Star(c) any number of them, End the end of the text. */
  datatype Atom = One(c: char) | Star(c: char) | End

  function Parse(re: string): (r: seq<Atom>) {
    if re == [] then []
    else if |re| >= 2 && re[1] == '*' then [Star(re[0])] + Parse(re[2..])
    else if re == "$" then [End]
    else [One(re[0])] + Parse(re[1..])
  }

  predicate Fits(c: char, x: char) {
    c == '.' || c == x
  }

  // ------------------------------------------------------------------------------------
  // What a pattern means
  // ------------------------------------------------------------------------------------

  /** Atom a matches text[i..j]. */
  predicate Spans(a: Atom, text: string, i: nat, j: nat)
    requires i <= j <= |text|
  {
    match a
    case One(c) => j == i + 1 && Fits(c, text[i])
    case Star(c) => forall k :: i <= k < j ==> Fits(c, text[k])
    case End => i == j == |text|
  }

  /** cuts divides a prefix of the text among the atoms. */
  ghost predicate Splits(atoms: seq<Atom>, text: string, cuts: seq<nat>) {
    && |cuts| == |atoms| + 1 && cuts[0] == 0
    && (forall k :: 0 <= k < |cuts| ==> cuts[k] <= |text|)
    && forall k :: 0 <= k < |atoms| ==> SpansAt(atoms, text, cuts, k)
  }

  predicate SpansAt(atoms: seq<Atom>, text: string, cuts: seq<nat>, k: nat)
    requires k < |atoms| && k + 1 < |cuts|
  {
    cuts[k] <= cuts[k + 1] <= |text| && Spans(atoms[k], text, cuts[k], cuts[k + 1])
  }

  /** The pattern matches at the start of the text. */
  ghost predicate MatchesAt(re: string, text: string) {
    exists cuts :: Splits(Parse(re), text, cuts)
  }

  /** The pattern matches somewhere, or at the start if it begins with ^. */
  ghost predicate Matches(re: string, text: string) {
    if re != [] && re[0] == '^' then MatchesAt(re[1..], text)
    else exists k :: 0 <= k <= |text| && MatchesAt(re, text[k..])
  }

  // ------------------------------------------------------------------------------------
  // Reading the atoms one at a time
  // ------------------------------------------------------------------------------------

  ghost predicate Here(atoms: seq<Atom>, text: string)
    decreases |atoms|
  {
    if atoms == [] then true
    else match atoms[0]
      case One(c) => text != [] && Fits(c, text[0]) && Here(atoms[1..], text[1..])
      case Star(c) => exists k :: 0 <= k <= |text| && Run(c, text, k) && Here(atoms[1..], text[k..])
      case End => text == [] && Here(atoms[1..], text)
  }

  /** The first k characters all fit c. */
  predicate Run(c: char, text: string, k: nat)
    requires k <= |text|
  {
    forall i :: 0 <= i < k ==> Fits(c, text[i])
  }

  function Shift(cuts: seq<nat>, n: nat): (r: seq<nat>)
    ensures |r| == |cuts| && forall k :: 0 <= k < |cuts| ==> r[k] == cuts[k] + n
  {
    seq(|cuts|, k requires 0 <= k < |cuts| => cuts[k] + n)
  }

  /** A split of the rest of the text behind the first n characters extends to the front. */
  lemma Prepend(atoms: seq<Atom>, text: string, n: nat, cuts: seq<nat>)
    requires atoms != [] && n <= |text| && Spans(atoms[0], text, 0, n) && Splits(atoms[1..], text[n..], cuts)
    ensures Splits(atoms, text, [0] + Shift(cuts, n))
  {
    var r := [0] + Shift(cuts, n);
    forall k | 0 <= k < |atoms|
      ensures SpansAt(atoms, text, r, k)
    {
      if k > 0 {
        assert SpansAt(atoms[1..], text[n..], cuts, k - 1);
      }
    }
  }

  lemma {:induction false} HereSplits(atoms: seq<Atom>, text: string) returns (cuts: seq<nat>)
    requires Here(atoms, text)
    ensures Splits(atoms, text, cuts)
    decreases |atoms|
  {
    if atoms == [] {
      return [0];
    }
    match atoms[0] {
      case One(c) =>
        cuts := HereSplits(atoms[1..], text[1..]);
        Prepend(atoms, text, 1, cuts);
        cuts := [0] + Shift(cuts, 1);
      case Star(c) =>
        var k :| 0 <= k <= |text| && Run(c, text, k) && Here(atoms[1..], text[k..]);
        cuts := HereSplits(atoms[1..], text[k..]);
        Prepend(atoms, text, k, cuts);
        cuts := [0] + Shift(cuts, k);
      case End =>
        cuts := HereSplits(atoms[1..], text);
        assert text[0..] == text;
        Prepend(atoms, text, 0, cuts);
        cuts := [0] + Shift(cuts, 0);
    }
  }

  /** The cuts behind the first atom, counted from where it ends. */
  lemma Behind(atoms: seq<Atom>, text: string, cuts: seq<nat>) returns (rest: seq<nat>)
    requires atoms != [] && Splits(atoms, text, cuts)
    ensures cuts[1] <= |text| && Splits(atoms[1..], text[cuts[1]..], rest)
  {
    var n := cuts[1];
    Rising(atoms, text, cuts);
    rest := seq(|atoms|, k requires 0 <= k < |atoms| => cuts[k + 1] - n);
    forall k | 0 <= k < |atoms[1..]|
      ensures SpansAt(atoms[1..], text[n..], rest, k)
    {
      assert SpansAt(atoms, text, cuts, k + 1);
    }
  }

  lemma Rising(atoms: seq<Atom>, text: string, cuts: seq<nat>)
    requires atoms != [] && Splits(atoms, text, cuts)
    ensures forall k :: 1 <= k < |cuts| ==> cuts[1] <= cuts[k]
  {
    var k := 1;
    while k + 1 < |cuts|
      invariant 1 <= k < |cuts| && forall i :: 1 <= i <= k ==> cuts[1] <= cuts[i]
    {
      assert SpansAt(atoms, text, cuts, k);
      k := k + 1;
    }
  }

  lemma {:induction false} SplitsHere(atoms: seq<Atom>, text: string, cuts: seq<nat>)
    requires Splits(atoms, text, cuts)
    ensures Here(atoms, text)
    decreases |atoms|
  {
    if atoms != [] {
      assert SpansAt(atoms, text, cuts, 0);
      var rest := Behind(atoms, text, cuts);
      SplitsHere(atoms[1..], text[cuts[1]..], rest);
      match atoms[0] {
        case One(_) =>
        case Star(c) =>
          assert Run(c, text, cuts[1]);
        case End =>
          assert text[0..] == text;
      }
    }
  }

  lemma HereIff(re: string, text: string)
    ensures Here(Parse(re), text) <==> MatchesAt(re, text)
  {
    if Here(Parse(re), text) {
      var cuts := HereSplits(Parse(re), text);
    }
    if MatchesAt(re, text) {
      var cuts :| Splits(Parse(re), text, cuts);
      SplitsHere(Parse(re), text, cuts);
    }
  }

  // ------------------------------------------------------------------------------------
  // The matcher
  // ------------------------------------------------------------------------------------

  method MatchHere(re: string, text: string) returns (r: bool)
    ensures r == Here(Parse(re), text)
    decreases |re|, 0
  {
    if re == [] {
      return true;
    }
    if |re| >= 2 && re[1] == '*' {
      r := MatchStar(re[0], re[2..], text);
      assert Parse(re)[1..] == Parse(re[2..]);
      return;
    }
    if re[0] == '$' && |re| == 1 {
      return text == [];
    }
    assert Parse(re)[1..] == Parse(re[1..]);
    if text != [] && (re[0] == '.' || re[0] == text[0]) {
      r := MatchHere(re[1..], text[1..]);
      return;
    }
    return false;
  }

  /** No run of c goes past a character that does not fit it. */
  lemma Stop(c: char, text: string, n: nat)
    requires n <= |text| && (n == |text| || !Fits(c, text[n]))
    ensures forall k :: 0 <= k <= |text| && Run(c, text, k) ==> k <= n
  {
  }

  /** matchstar: c*re at the start of the text. */
  method MatchStar(c: char, re: string, text: string) returns (r: bool)
    ensures r <==> exists k :: 0 <= k <= |text| && Run(c, text, k) && Here(Parse(re), text[k..])
    decreases |re|, 1
  {
    var n := 0;
    while true
      invariant 0 <= n <= |text| && Run(c, text, n)
      invariant forall k :: 0 <= k < n ==> !Here(Parse(re), text[k..])
      decreases |text| - n
    {
      var m := MatchHere(re, text[n..]);
      if m {
        return true;
      }
      if n == |text| || !(text[n] == c || c == '.') {
        Stop(c, text, n);
        return false;
      }
      n := n + 1;
    }
  }

  /** match. */
  method Match(re: string, text: string) returns (r: bool)
    ensures r == Matches(re, text)
  {
    if re != [] && re[0] == '^' {
      HereIff(re[1..], text);
      r := MatchHere(re[1..], text);
      return;
    }
    var n := 0;
    while true
      invariant 0 <= n <= |text|
      invariant forall k :: 0 <= k < n ==> !MatchesAt(re, text[k..])
      decreases |text| - n
    {
      HereIff(re, text[n..]);
      var m := MatchHere(re, text[n..]);
      if m {
        return true;
      }
      if n == |text| {
        return false;
      }
      n := n + 1;
    }
  }
}
