/**
 * String helpers of the engine (src/goo/util/StringUtil.js): suffix and prefix
 * tests, capitalisation, and the generator of unused names.
 * JavaScript strings are modelled as `seq<char>`.
 */
module StringUtil {
  import opened Wrappers
  import opened Decimal

  /** `search` occurs in `s` starting at index `k`. */
  predicate OccursAt(s: string, search: string, k: int) {
    0 <= k && k + |search| <= |s| && s[k..k + |search|] == search
  }

  /** The start position `String.prototype.indexOf` uses: `position` clamped into `[0, |s|]`. */
  function ClampPosition(position: int, length: nat): (p: nat)
    ensures p <= length
    ensures 0 <= position <= length ==> p == position
  {
    if position < 0 then 0 else if position > length then length else position
  }

  function SearchFrom(s: string, search: string, k: nat): (r: int)
    requires k <= |s|
    ensures r == -1 || (k <= r && OccursAt(s, search, r))
    ensures r == -1 ==> forall j :: k <= j ==> !OccursAt(s, search, j)
    ensures r != -1 ==> forall j :: k <= j < r ==> !OccursAt(s, search, j)
    decreases |s| - k
  {
    if k + |search| > |s| then -1
    else if s[k..k + |search|] == search then k
    else SearchFrom(s, search, k + 1)
  }

  /** `s.indexOf(search, position)`: the first occurrence at or after the clamped position, or -1. */
  function IndexOf(s: string, search: string, position: int): (r: int)
    ensures r == -1 <==> forall j :: ClampPosition(position, |s|) <= j ==> !OccursAt(s, search, j)
    ensures r != -1 ==> ClampPosition(position, |s|) <= r && OccursAt(s, search, r)
    ensures r != -1 ==> forall j :: ClampPosition(position, |s|) <= j < r ==> !OccursAt(s, search, j)
  {
    SearchFrom(s, search, ClampPosition(position, |s|))
  }

  /** `StringUtil.endsWith`: true exactly when `suffix` ends `str`; the empty suffix always does. */
  function EndsWith(str: string, suffix: string): (r: bool)
    ensures r <==> |suffix| <= |str| && str[|str| - |suffix|..] == suffix
  {
    var r := IndexOf(str, suffix, |str| - |suffix|) != -1;
    assert |suffix| <= |str| ==> OccursAt(str, suffix, |str| - |suffix|) == (str[|str| - |suffix|..] == suffix);
    r
  }

  /** `StringUtil.startsWith`: true exactly when `prefix` begins `str`. */
  function StartsWith(str: string, prefix: string): (r: bool)
    ensures r <==> |prefix| <= |str| && str[..|prefix|] == prefix
  {
    var r := IndexOf(str, prefix, 0) == 0;
    assert OccursAt(str, prefix, 0) <==> |prefix| <= |str| && str[..|prefix|] == prefix;
    r
  }

  /** `String.prototype.substring(start, end)`: both ends clamped, swapped when reversed. */
  function Substring(s: string, start: int, end: int): (r: string)
  {
    var a := ClampPosition(start, |s|);
    var b := ClampPosition(end, |s|);
    if a <= b then s[a..b] else s[b..a]
  }

  /** Upper-casing of one character (ASCII letters only). */
  function UpperChar(c: char): char {
    if 'a' <= c <= 'z' then (c as int - 'a' as int + 'A' as int) as char else c
  }

  function UpperCase(s: string): (r: string)
    ensures |r| == |s| && forall i | 0 <= i < |s| :: r[i] == UpperChar(s[i])
  {
    if s == [] then [] else [UpperChar(s[0])] + UpperCase(s[1..])
  }

  /**
   * `StringUtil.capitalize`: the first character upper-cased, the length and
   * every later character kept; the empty string maps to itself.
   */
  function Capitalize(str: string): (r: string)
    ensures |r| == |str|
    ensures |str| > 0 ==> r[0] == UpperChar(str[0]) && r[1..] == str[1..]
    ensures str == [] ==> r == []
  {
    UpperCase(Substring(str, 0, 1)) + Substring(str, 1, |str|)
  }

  /** The separator `getIndexedName` uses: a missing or empty one (falsy in JavaScript) becomes `'_'`. */
  function SeparatorOrDefault(separator: Option<string>): (sep: string)
    ensures |sep| > 0
    ensures separator.Some? && separator.value != "" ==> sep == separator.value
  {
    if separator.None? || separator.value == "" then "_" else separator.value
  }

  /** End of the maximal run of ASCII digits starting at `i` (what `\d+` consumes). */
  function DigitEnd(s: string, i: nat): (j: nat)
    requires i <= |s|
    ensures i <= j <= |s|
    ensures AllDigits(s[i..j])
    ensures j < |s| ==> !IsDigit(s[j])
    decreases |s| - i
  {
    if i < |s| && IsDigit(s[i]) then
      var j := DigitEnd(s, i + 1);
      assert s[i..j] == [s[i]] + s[i + 1..j];
      j
    else i
  }

  /**
   * What `RegExp(base + '(' + separator + '\\d+)?').exec(name)` reports: no match,
   * a match without the numbered suffix, or a match whose suffix reads as `n`.
   */
  datatype BaseMatch = NoMatch | Bare | Numbered(n: nat)

  function Classify(name: string, base: string, sep: string): (m: BaseMatch)
    ensures m.NoMatch? <==> forall j :: 0 <= j ==> !OccursAt(name, base, j)
  {
    var at := IndexOf(name, base, 0);
    if at == -1 then NoMatch
    else
      var p := at + |base|;
      if OccursAt(name, sep, p) && DigitEnd(name, p + |sep|) > p + |sep| then
        Numbered(ParseDigits(name[p + |sep|..DigitEnd(name, p + |sep|)]))
      else Bare
  }

  /** A name spelled `base + sep + n` is classified as carrying the number `n`. */
  lemma ClassifyIndexedName(base: string, sep: string, n: nat)
    ensures Classify(base + sep + DecimalString(n), base, sep) == Numbered(n)
  {
    var digits := DecimalString(n);
    var name := base + sep + digits;
    var p := |base| + |sep|;
    BaseAtStart(base, sep, digits);
    SeparatorAfterBase(base, sep, digits);
    DigitsAfterSeparator(base, sep, digits);
    ParseDecimalString(n);
    var q := DigitEnd(name, p);
    assert name[p..q] == digits;
    ClassifyNumbered(name, base, sep, 0, p, q);
  }

  lemma ClassifyNumbered(name: string, base: string, sep: string, at: nat, p: nat, q: nat)
    requires IndexOf(name, base, 0) == at
    requires OccursAt(name, sep, at + |base|)
    requires p == at + |base| + |sep| && p <= |name| && q == DigitEnd(name, p) && q > p
    ensures Classify(name, base, sep) == Numbered(ParseDigits(name[p..q]))
  {
  }

  lemma BaseAtStart(base: string, sep: string, digits: string)
    ensures IndexOf(base + sep + digits, base, 0) == 0
  {
  }

  lemma SeparatorAfterBase(base: string, sep: string, digits: string)
    ensures OccursAt(base + sep + digits, sep, |base|)
  {
  }

  lemma DigitsAfterSeparator(base: string, sep: string, digits: string)
    requires |digits| > 0 && AllDigits(digits)
    ensures var name := base + sep + digits;
            DigitEnd(name, |base| + |sep|) > |base| + |sep|
            && name[|base| + |sep|..DigitEnd(name, |base| + |sep|)] == digits
  {
  }

  /** One step of the loop at StringUtil.js:22-34 as written: a bare match resets the index to 1. */
  function StepAsWritten(index: nat, m: BaseMatch): nat {
    match m
    case NoMatch => index
    case Bare => 1
    case Numbered(n) => if n >= index then n + 1 else index
  }

  /** One step with the evident intent: a bare match only raises the index to at least 1. */
  function Step(index: nat, m: BaseMatch): (r: nat)
    ensures index <= r
    ensures m.Numbered? ==> m.n < r
    ensures !m.NoMatch? ==> 1 <= r
  {
    match m
    case NoMatch => index
    case Bare => if index >= 1 then index else 1
    case Numbered(n) => if n >= index then n + 1 else index
  }

  /** The index the as-written loop ends with, starting from `index`. */
  function FinalIndexAsWritten(base: string, taken: seq<string>, sep: string, index: nat): nat
    decreases |taken|
  {
    if taken == [] then index
    else FinalIndexAsWritten(base, taken[1..], sep, StepAsWritten(index, Classify(taken[0], base, sep)))
  }

  /** The index the corrected loop ends with, starting from `index`. */
  function FinalIndex(base: string, taken: seq<string>, sep: string, index: nat): nat
    decreases |taken|
  {
    if taken == [] then index
    else FinalIndex(base, taken[1..], sep, Step(index, Classify(taken[0], base, sep)))
  }

  /** When no taken name contains `base`, both loops leave the index where it started. */
  lemma {:induction false} NoMatchKeepsIndex(base: string, taken: seq<string>, sep: string, index: nat)
    requires forall t :: t in taken ==> Classify(t, base, sep).NoMatch?
    ensures FinalIndexAsWritten(base, taken, sep, index) == index
    ensures FinalIndex(base, taken, sep, index) == index
    decreases |taken|
  {
    if taken != [] {
      assert taken[0] in taken;
      NoMatchKeepsIndex(base, taken[1..], sep, index);
    }
  }

  /**
   * As written, the result depends on order: when the last taken name that
   * contains `base` has no numbered suffix, the loop ends with index exactly 1.
   */
  lemma {:induction false} AsWrittenLastBareGivesOne(base: string, taken: seq<string>, sep: string, index: nat, j: nat)
    requires j < |taken| && Classify(taken[j], base, sep).Bare?
    requires forall k :: j < k < |taken| ==> Classify(taken[k], base, sep).NoMatch?
    ensures FinalIndexAsWritten(base, taken, sep, index) == 1
    decreases |taken|
  {
    var next := StepAsWritten(index, Classify(taken[0], base, sep));
    if j == 0 {
      NoMatchKeepsIndex(base, taken[1..], sep, next);
    } else {
      AsWrittenLastBareGivesOne(base, taken[1..], sep, next, j - 1);
    }
  }

  /**
   * As written, when the last taken name that contains `base` carries the
   * number `n`, the index ends above `n`.
   */
  lemma {:induction false} AsWrittenLastNumberedExceeds(base: string, taken: seq<string>, sep: string, index: nat, j: nat)
    requires j < |taken| && Classify(taken[j], base, sep).Numbered?
    requires forall k :: j < k < |taken| ==> Classify(taken[k], base, sep).NoMatch?
    ensures FinalIndexAsWritten(base, taken, sep, index) > Classify(taken[j], base, sep).n
    decreases |taken|
  {
    var next := StepAsWritten(index, Classify(taken[0], base, sep));
    if j == 0 {
      NoMatchKeepsIndex(base, taken[1..], sep, next);
    } else {
      AsWrittenLastNumberedExceeds(base, taken[1..], sep, next, j - 1);
    }
  }

  /** The as-written loop can hand back a name that is already taken. */
  lemma AsWrittenReturnsTakenName()
    ensures var taken := ["foo_1", "foo"];
            "foo" in taken && "foo" + "_" + DecimalString(FinalIndexAsWritten("foo", taken, "_", 0)) in taken
  {
    var taken := ["foo_1", "foo"];
    ClassifyIndexedName("foo", "_", 1);
    assert taken[0] == "foo" + "_" + DecimalString(1);
    assert Classify(taken[1], "foo", "_") == Bare by {
      assert OccursAt(taken[1], "foo", 0);
    }
    AsWrittenLastBareGivesOne("foo", taken, "_", 0, 1);
  }

  /** The corrected index never decreases and ends above every suffix number met. */
  lemma {:induction false} FinalIndexBounds(base: string, taken: seq<string>, sep: string, index: nat)
    ensures index <= FinalIndex(base, taken, sep, index)
    ensures forall t :: t in taken && Classify(t, base, sep).Numbered? ==>
              Classify(t, base, sep).n < FinalIndex(base, taken, sep, index)
    ensures (exists t :: t in taken && !Classify(t, base, sep).NoMatch?) ==> 1 <= FinalIndex(base, taken, sep, index)
    decreases |taken|
  {
    if taken != [] {
      var next := Step(index, Classify(taken[0], base, sep));
      FinalIndexBounds(base, taken[1..], sep, next);
      forall t | t in taken
        ensures t == taken[0] || t in taken[1..]
      {
      }
    }
  }

  /** The corrected name `base + sep + index` is never among the taken names. */
  lemma IndexedNameIsFree(base: string, taken: seq<string>, sep: string)
    ensures base + sep + DecimalString(FinalIndex(base, taken, sep, 0)) !in taken
  {
    var n := FinalIndex(base, taken, sep, 0);
    FinalIndexBounds(base, taken, sep, 0);
    ClassifyIndexedName(base, sep, n);
  }

  /**
   * `StringUtil.getIndexedName`: scans the taken names in order, keeping a
   * running index, and returns `base + separator + index`.
   */
  method GetIndexedName(base: string, takenNames: seq<string>, separator: Option<string>) returns (name: string)
    ensures name == base + SeparatorOrDefault(separator) + DecimalString(FinalIndex(base, takenNames, SeparatorOrDefault(separator), 0))
    ensures name !in takenNames
  {
    var sep := SeparatorOrDefault(separator);
    var index := 0;
    var i := 0;
    while i < |takenNames|
      invariant 0 <= i <= |takenNames|
      invariant FinalIndex(base, takenNames[i..], sep, index) == FinalIndex(base, takenNames, sep, 0)
    {
      assert takenNames[i..][1..] == takenNames[i + 1..];
      var m := Classify(takenNames[i], base, sep);
      match m {
        case NoMatch =>
        case Bare =>
          if index < 1 {
            index := 1;
          }
        case Numbered(nidx) =>
          if nidx >= index {
            index := nidx + 1;
          }
      }
      i := i + 1;
    }
    name := base + sep + DecimalString(index);
    IndexedNameIsFree(base, takenNames, sep);
  }

  /**
   * `StringUtil.getUniqueName`: the desired name when it is free, otherwise an
   * indexed variant of it; either way a name not already taken.
   */
  method GetUniqueName(desiredName: string, takenNames: seq<string>, separator: Option<string>) returns (name: string)
    ensures desiredName !in takenNames ==> name == desiredName
    ensures desiredName in takenNames ==>
              name == desiredName + SeparatorOrDefault(separator)
                      + DecimalString(FinalIndex(desiredName, takenNames, SeparatorOrDefault(separator), 0))
    ensures name !in takenNames
  {
    if desiredName !in takenNames {
      return desiredName;
    }
    name := GetIndexedName(desiredName, takenNames, separator);
  }
}
