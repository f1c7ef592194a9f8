/** The fragment of regular expressions that the GUI uses: literals and repeated character classes, some captured. */
module Regex {
  import opened Common
  import opened Text

  datatype Class = Space | Digits | DigitsAndDots | Capitals {
    predicate Has(c: char) {
      match this
      case Space => IsPythonSpace(c)
      case Digits => IsDigit(c)
      case DigitsAndDots => IsDigitOrDot(c)
      case Capitals => IsUpper(c)
    }
  }

  datatype Pattern =
    | End
    | Lit(text: string, next: Pattern)
    | Many(cls: Class, min: nat, capture: bool, next: Pattern)

  function Run(cls: Class, s: string): nat {
    RunLength(s, c => cls.Has(c))
  }

  /** Matching at the start of `s`, every repetition as long as possible: the captured groups, or None. */
  function MatchAt(p: Pattern, s: string): Option<seq<string>> {
    match p
    case End => Some([])
    case Lit(text, next) => if text <= s then MatchAt(next, s[|text|..]) else None
    case Many(cls, min, capture, next) =>
      var k := Run(cls, s);
      if k < min then None
      else Prepend(if capture then [s[..k]] else [], MatchAt(next, s[k..]))
  }

  function Prepend(group: seq<string>, r: Option<seq<string>>): Option<seq<string>> {
    if r.Some? then Some(group + r.value) else None
  }

  /** re.search: the leftmost position at which the pattern matches. */
  function Search(p: Pattern, s: string): Option<seq<string>> {
    if MatchAt(p, s).Some? || s == "" then MatchAt(p, s) else Search(p, s[1..])
  }

  // ---------- Greedy matching is what the expression means ----------

  /** `s` starts with a word of the pattern, split into the pieces of the lengths given by `cuts`. */
  ghost predicate Derives(p: Pattern, s: string, cuts: seq<nat>) {
    match p
    case End => cuts == []
    case Lit(text, next) => cuts != [] && cuts[0] == |text| && text <= s && Derives(next, s[|text|..], cuts[1..])
    case Many(cls, min, _, next) =>
      && cuts != [] && min <= cuts[0] <= |s|
      && (forall i :: 0 <= i < cuts[0] ==> cls.Has(s[i]))
      && Derives(next, s[cuts[0]..], cuts[1..])
  }

  ghost predicate HasWord(p: Pattern, s: string) {
    exists cuts :: Derives(p, s, cuts)
  }

  /** The groups captured by such a split. */
  ghost function Groups(p: Pattern, s: string, cuts: seq<nat>): seq<string>
    requires Derives(p, s, cuts)
  {
    match p
    case End => []
    case Lit(text, next) => Groups(next, s[|text|..], cuts[1..])
    case Many(_, _, capture, next) =>
      (if capture then [s[..cuts[0]]] else []) + Groups(next, s[cuts[0]..], cuts[1..])
  }

  predicate Disjoint(a: Class, b: Class) {
    a != b && !(a.Digits? && b.DigitsAndDots?) && !(a.DigitsAndDots? && b.Digits?)
  }

  /** No word of `p` starts with a character of `cls`, and `p` has no empty word. */
  predicate Excludes(cls: Class, p: Pattern) {
    match p
    case End => false
    case Lit(text, _) => text != "" && !cls.Has(text[0])
    case Many(other, min, _, _) => min > 0 && Disjoint(cls, other)
  }

  /** Every repetition is followed by something that cannot continue it. */
  predicate Separated(p: Pattern) {
    match p
    case End => true
    case Lit(_, next) => Separated(next)
    case Many(cls, _, _, next) => Excludes(cls, next) && Separated(next)
  }

  /**
   * For a separated pattern there is at most one way to match at a given place, greedy matching finds it, and it fails
   * only when there is none. So no backtracking engine can disagree.
   */
  lemma GreedyIsExact(p: Pattern, s: string)
    requires Separated(p)
    ensures MatchAt(p, s).Some? <==> HasWord(p, s)
    ensures forall cuts :: Derives(p, s, cuts) ==> MatchAt(p, s) == Some(Groups(p, s, cuts))
  {
    if MatchAt(p, s).Some? {
      var cuts := GreedyDerives(p, s);
      assert exists c :: Derives(p, s, c);
    }
    forall cuts | Derives(p, s, cuts)
      ensures MatchAt(p, s) == Some(Groups(p, s, cuts))
    {
      DerivationIsGreedy(p, s, cuts);
    }
  }

  lemma {:induction false} GreedyDerives(p: Pattern, s: string) returns (cuts: seq<nat>)
    requires MatchAt(p, s).Some?
    ensures Derives(p, s, cuts)
  {
    match p
    case End => cuts := [];
    case Lit(text, next) =>
      cuts := GreedyDerives(next, s[|text|..]);
      cuts := [|text|] + cuts;
    case Many(cls, _, _, next) =>
      var k := Run(cls, s);
      cuts := GreedyDerives(next, s[k..]);
      cuts := [k] + cuts;
  }

  lemma {:induction false} DerivationIsGreedy(p: Pattern, s: string, cuts: seq<nat>)
    requires Separated(p) && Derives(p, s, cuts)
    ensures MatchAt(p, s) == Some(Groups(p, s, cuts))
  {
    match p
    case End =>
    case Lit(text, next) => DerivationIsGreedy(next, s[|text|..], cuts[1..]);
    case Many(cls, _, _, next) =>
      var k := cuts[0];
      StopsAt(cls, next, s[k..], cuts[1..]);
      assert Run(cls, s) == k;
      DerivationIsGreedy(next, s[k..], cuts[1..]);
  }

  lemma StopsAt(cls: Class, p: Pattern, s: string, cuts: seq<nat>)
    requires Excludes(cls, p) && Derives(p, s, cuts)
    ensures s != "" && !cls.Has(s[0])
  {
  }

  // ---------- A repetition at the end of a pattern ----------

  /** Every repetition but one at the very end is followed by something that cannot continue it. */
  predicate SeparatedToEnd(p: Pattern) {
    match p
    case End => true
    case Lit(_, next) => SeparatedToEnd(next)
    case Many(cls, _, _, next) => next.End? || (Excludes(cls, next) && SeparatedToEnd(next))
  }

  lemma {:induction false} SeparatedIsToEnd(p: Pattern)
    requires Separated(p)
    ensures SeparatedToEnd(p)
  {
    if !p.End? {
      SeparatedIsToEnd(p.next);
    }
  }

  /** Lexicographic order: at the first difference `a` takes more. */
  predicate TakesMore(a: seq<nat>, b: seq<nat>) {
    a == [] || b == [] || a[0] > b[0] || (a[0] == b[0] && TakesMore(a[1..], b[1..]))
  }

  /**
   * The match that a backtracking engine returns: it tries the longest repetition first and shortens the last ones
   * first, so it finds the lexicographically greatest split.
   */
  ghost predicate Preferred(p: Pattern, s: string, cuts: seq<nat>) {
    Derives(p, s, cuts) && forall other :: Derives(p, s, other) ==> TakesMore(cuts, other)
  }

  /**
   * With a repetition at its end a pattern can match in several ways at a place; greedy matching then finds the one a
   * backtracking engine prefers, and fails only when there is none.
   */
  lemma GreedyIsPreferred(p: Pattern, s: string)
    requires SeparatedToEnd(p)
    ensures MatchAt(p, s).Some? <==> HasWord(p, s)
    ensures MatchAt(p, s).Some? <==> exists cuts :: Preferred(p, s, cuts)
    ensures forall cuts :: Preferred(p, s, cuts) ==> MatchAt(p, s) == Some(Groups(p, s, cuts))
  {
    forall cuts | Derives(p, s, cuts)
      ensures MatchAt(p, s).Some? && TakesMore(GreedyCuts(p, s), cuts)
    {
      GreedyTakesMore(p, s, cuts);
    }
    if MatchAt(p, s).Some? {
      var greedy := GreedyCuts(p, s);
      assert Derives(p, s, greedy) && Preferred(p, s, greedy);
      forall cuts | Preferred(p, s, cuts)
        ensures cuts == greedy
      {
        SameLength(p, s, cuts, greedy);
        Antisymmetric(cuts, greedy);
      }
    }
  }

  /** The split that greedy matching makes. */
  ghost function GreedyCuts(p: Pattern, s: string): (cuts: seq<nat>)
    requires MatchAt(p, s).Some?
    ensures Derives(p, s, cuts) && MatchAt(p, s) == Some(Groups(p, s, cuts))
  {
    match p
    case End => []
    case Lit(text, next) => [|text|] + GreedyCuts(next, s[|text|..])
    case Many(cls, _, _, next) => [Run(cls, s)] + GreedyCuts(next, s[Run(cls, s)..])
  }

  lemma {:induction false} GreedyTakesMore(p: Pattern, s: string, cuts: seq<nat>)
    requires SeparatedToEnd(p) && Derives(p, s, cuts)
    ensures MatchAt(p, s).Some? && TakesMore(GreedyCuts(p, s), cuts)
  {
    match p
    case End =>
    case Lit(text, next) => GreedyTakesMore(next, s[|text|..], cuts[1..]);
    case Many(cls, _, _, next) =>
      var k := cuts[0];
      assert k <= Run(cls, s);
      if !next.End? {
        StopsAt(cls, next, s[k..], cuts[1..]);
        assert Run(cls, s) == k;
        GreedyTakesMore(next, s[k..], cuts[1..]);
      }
  }

  lemma SameLength(p: Pattern, s: string, a: seq<nat>, b: seq<nat>)
    requires Derives(p, s, a) && Derives(p, s, b)
    ensures |a| == |b|
  {
    SplitLength(p, s, a);
    SplitLength(p, s, b);
  }

  function Parts(p: Pattern): nat {
    if p.End? then 0 else 1 + Parts(p.next)
  }

  lemma {:induction false} SplitLength(p: Pattern, s: string, cuts: seq<nat>)
    requires Derives(p, s, cuts)
    ensures |cuts| == Parts(p)
  {
    if !p.End? {
      SplitLength(p.next, s[cuts[0]..], cuts[1..]);
    }
  }

  lemma {:induction false} Antisymmetric(a: seq<nat>, b: seq<nat>)
    requires |a| == |b| && TakesMore(a, b) && TakesMore(b, a)
    ensures a == b
  {
    if a != [] {
      Antisymmetric(a[1..], b[1..]);
      assert a == [a[0]] + a[1..] && b == [b[0]] + b[1..];
    }
  }

  // ---------- Searching ----------

  /** The pattern has a word that starts at place k of `s`. */
  ghost predicate MatchesAt(p: Pattern, s: string, k: nat)
    requires k <= |s|
  {
    HasWord(p, s[k..])
  }

  /** The first place at which the pattern matches; |s| + 1 if there is none. */
  function Leftmost(p: Pattern, s: string): (k: nat)
    ensures k <= |s| + 1
    ensures Search(p, s) == if k <= |s| then MatchAt(p, s[k..]) else None
    ensures k <= |s| ==> MatchAt(p, s[k..]).Some?
    ensures forall j :: 0 <= j < k && j <= |s| ==> MatchAt(p, s[j..]).None?
  {
    if MatchAt(p, s).Some? then
      assert s[0..] == s;
      0
    else if s == "" then 1
    else
      var k := Leftmost(p, s[1..]);
      assert forall j :: 0 < j <= |s| ==> s[j..] == s[1..][j - 1..];
      assert s[0..] == s;
      k + 1
  }

  /**
   * What search returns is what the expression means: None exactly when the pattern matches nowhere, and otherwise the
   * groups of the preferred match at the leftmost place at which it matches.
   */
  lemma SearchIsLeftmost(p: Pattern, s: string)
    requires SeparatedToEnd(p)
    ensures Search(p, s).None? <==> forall k :: 0 <= k <= |s| ==> !MatchesAt(p, s, k)
    ensures Search(p, s).Some? ==>
      var k := Leftmost(p, s);
      && k <= |s| && MatchesAt(p, s, k) && (forall j :: 0 <= j < k ==> !MatchesAt(p, s, j))
      && forall cuts :: Preferred(p, s[k..], cuts) ==> Search(p, s) == Some(Groups(p, s[k..], cuts))
  {
    hide Search, MatchAt, Derives, Preferred, Groups, HasWord;
    forall k | 0 <= k <= |s|
      ensures MatchAt(p, s[k..]).Some? <==> MatchesAt(p, s, k)
    {
      GreedyIsPreferred(p, s[k..]);
    }
    var k := Leftmost(p, s);
    if k <= |s| { GreedyIsPreferred(p, s[k..]); }
  }

  // ---------- How much of a text a match takes ----------

  /** The length of the word that greedy matching finds. */
  function MatchEnd(p: Pattern, s: string): (k: nat)
    requires MatchAt(p, s).Some?
    ensures k <= |s|
  {
    match p
    case End => 0
    case Lit(text, next) => |text| + MatchEnd(next, s[|text|..])
    case Many(cls, _, _, next) => Run(cls, s) + MatchEnd(next, s[Run(cls, s)..])
  }

  /** No word of the pattern contains `c`. */
  predicate Avoids(p: Pattern, c: char) {
    match p
    case End => true
    case Lit(text, next) => c !in text && Avoids(next, c)
    case Many(cls, _, _, next) => !cls.Has(c) && Avoids(next, c)
  }

  lemma {:induction false} MatchAvoids(p: Pattern, s: string, c: char)
    requires Avoids(p, c) && MatchAt(p, s).Some?
    ensures forall i :: 0 <= i < MatchEnd(p, s) ==> s[i] != c
  {
    match p
    case End =>
    case Lit(text, next) =>
      MatchAvoids(next, s[|text|..], c);
      AvoidsInTwo(s, |text|, MatchEnd(next, s[|text|..]), c);
    case Many(cls, _, _, next) =>
      var k := Run(cls, s);
      MatchAvoids(next, s[k..], c);
      AvoidsInTwo(s, k, MatchEnd(next, s[k..]), c);
  }

  lemma AvoidsInTwo(s: string, k: nat, l: nat, c: char)
    requires k + l <= |s| && (forall i :: 0 <= i < k ==> s[i] != c) && forall i :: 0 <= i < l ==> s[k..][i] != c
    ensures forall i :: 0 <= i < k + l ==> s[i] != c
  {
    assert forall i :: k <= i < k + l ==> s[i] == s[k..][i - k];
  }

  /** Every word of the pattern ends in `c`. */
  predicate EndsIn(p: Pattern, c: char) {
    match p
    case End => false
    case Lit(text, next) => if next.End? then text != "" && text[|text| - 1] == c else EndsIn(next, c)
    case Many(_, _, _, next) => EndsIn(next, c)
  }

  lemma {:induction false} MatchEndsIn(p: Pattern, s: string, c: char)
    requires EndsIn(p, c) && MatchAt(p, s).Some?
    ensures MatchEnd(p, s) > 0 && s[MatchEnd(p, s) - 1] == c
  {
    match p
    case Lit(text, next) =>
      var rest := s[|text|..];
      if !next.End? {
        MatchEndsIn(next, rest, c);
        assert s[|text| + (MatchEnd(next, rest) - 1)] == rest[MatchEnd(next, rest) - 1];
      }
    case Many(cls, _, _, next) =>
      var k := Run(cls, s);
      var rest := s[k..];
      MatchEndsIn(next, rest, c);
      assert s[k + (MatchEnd(next, rest) - 1)] == rest[MatchEnd(next, rest) - 1];
  }

  /** A match that ends before the text is continued does not depend on how it is continued. */
  lemma {:induction false} MatchInFront(p: Pattern, a: string, b: string)
    requires MatchAt(p, a + b).Some? && MatchEnd(p, a + b) <= |a|
    ensures MatchAt(p, a) == MatchAt(p, a + b)
  {
    if !p.End? {
      var k := if p.Lit? then |p.text| else Run(p.cls, a + b);
      assert (a + b)[k..] == a[k..] + b;
      MatchInFront(p.next, a[k..], b);
      if p.Many? { RunInFront(p.cls, a, b); }
      assert (a + b)[..k] == a[..k];
    }
  }

  lemma RunInFront(cls: Class, a: string, b: string)
    requires Run(cls, a + b) <= |a|
    ensures Run(cls, a) == Run(cls, a + b)
  {
    assert forall i :: 0 <= i < |a| ==> (a + b)[i] == a[i];
  }

  /** A split of a text is one of every longer text. */
  lemma {:induction false} DerivesFurther(p: Pattern, a: string, b: string, cuts: seq<nat>)
    requires Derives(p, a, cuts)
    ensures Derives(p, a + b, cuts) && Groups(p, a + b, cuts) == Groups(p, a, cuts)
  {
    if !p.End? {
      var k := cuts[0];
      assert (a + b)[k..] == a[k..] + b && (a + b)[..k] == a[..k];
      DerivesFurther(p.next, a[k..], b, cuts[1..]);
    }
  }

  /** So for a separated pattern a match stays what it is, whatever follows. */
  lemma MatchStays(p: Pattern, a: string, b: string)
    requires Separated(p) && MatchAt(p, a).Some?
    ensures MatchAt(p, a + b) == MatchAt(p, a)
  {
    var cuts := GreedyDerives(p, a);
    GreedyIsExact(p, a);
    DerivesFurther(p, a, b, cuts);
    GreedyIsExact(p, a + b);
  }

  /** The characters that every word has beside its captured groups. */
  function Needed(p: Pattern): nat {
    match p
    case End => 0
    case Lit(text, next) => |text| + Needed(next)
    case Many(_, min, capture, next) => (if capture then 0 else min) + Needed(next)
  }

  function TotalLength(groups: seq<string>): nat {
    if groups == [] then 0 else |groups[0]| + TotalLength(groups[1..])
  }

  lemma {:induction false} MatchIsLong(p: Pattern, s: string)
    requires MatchAt(p, s).Some?
    ensures MatchEnd(p, s) >= Needed(p) + TotalLength(MatchAt(p, s).value)
  {
    if !p.End? {
      var k := if p.Lit? then |p.text| else Run(p.cls, s);
      MatchIsLong(p.next, s[k..]);
      if p.Many? {
        var rest := MatchAt(p.next, s[k..]).value;
        if p.capture {
          assert ([s[..k]] + rest)[1..] == rest;
        } else {
          assert [] + rest == rest;
        }
      }
    }
  }

  // ---------- Matching printed text ----------

  lemma MatchLit(text: string, next: Pattern, rest: string)
    ensures MatchAt(Lit(text, next), text + rest) == MatchAt(next, rest)
  {
    assert (text + rest)[|text|..] == rest;
  }

  /** A repetition takes exactly the run before a character outside its class. */
  lemma MatchMany(cls: Class, min: nat, capture: bool, next: Pattern, run: string, rest: string)
    requires All(run, c => cls.Has(c)) && (rest == "" || !cls.Has(rest[0]))
    ensures MatchAt(Many(cls, min, capture, next), run + rest) ==
      if |run| < min then None else Prepend(if capture then [run] else [], MatchAt(next, rest))
  {
    RunOf(run, rest, c => cls.Has(c));
    assert (run + rest)[..|run|] == run && (run + rest)[|run|..] == rest;
  }

  lemma {:induction false} SearchSkips(p: Pattern, before: string, s: string)
    requires p.Lit? && p.text != "" && p.text[0] !in before
    ensures Search(p, before + s) == Search(p, s)
  {
    if before == "" {
      assert before + s == s;
    } else {
      assert (before + s)[0] == before[0];
      assert (before + s)[1..] == before[1..] + s;
      SearchSkips(p, before[1..], s);
    }
  }

  lemma SearchFails(p: Pattern, s: string)
    requires p.Lit? && p.text != "" && p.text[0] !in s
    ensures Search(p, s) == None
  {
    SearchSkips(p, s, "");
    assert s + "" == s;
  }
}
