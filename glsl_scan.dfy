/**
 * The declaration scanner of the shader engine: the global regular expression
 * at TestDynamic/WebContent/goo/renderer/Shader.js:36,
 *
 *   \b(attribute|uniform)\s+(<format>)\s+(\w+);(?:\s*\/\/\s*!\s*(\w+))*
 *
 * written as a recogniser over the source text. Every quantifier in it is
 * greedy and no alternative is a prefix of another, so at each position the
 * regular expression either fails or matches in exactly one way; `MatchAt`
 * computes that match and `Declarations` the sequence of matches that repeated
 * `exec` calls return.
 */
module GlslScan {
  import opened Wrappers

  /** JavaScript's `\w`. */
  predicate IsWordChar(c: char) {
    'a' <= c <= 'z' || 'A' <= c <= 'Z' || '0' <= c <= '9' || c == '_'
  }

  /** JavaScript's `\s`: ECMAScript white space and line terminators. */
  predicate IsSpace(c: char) {
    var k := c as int;
    k == 0x09 || k == 0x0A || k == 0x0B || k == 0x0C || k == 0x0D || k == 0x20 || k == 0xA0
    || k == 0x1680 || (0x2000 <= k <= 0x200A) || k == 0x2028 || k == 0x2029 || k == 0x202F
    || k == 0x205F || k == 0x3000 || k == 0xFEFF
  }

  /** `s` has white space at position `k`. */
  predicate SpaceAt(s: string, k: nat) {
    k < |s| && IsSpace(s[k])
  }

  /** `s` has a word character at position `k`. */
  predicate WordAt(s: string, k: nat) {
    k < |s| && IsWordChar(s[k])
  }

  predicate IsWord(s: string) {
    |s| > 0 && forall i | 0 <= i < |s| :: IsWordChar(s[i])
  }

  /** End of the maximal run of white space from `i` (what a greedy `\s*` consumes). */
  function SpaceEnd(s: string, i: nat): (j: nat)
    requires i <= |s|
    ensures i <= j <= |s|
    ensures !SpaceAt(s, j)
    decreases |s| - i
  {
    if SpaceAt(s, i) then SpaceEnd(s, i + 1) else i
  }

  /** End of the maximal run of word characters from `i` (what a greedy `\w+` consumes). */
  function WordEnd(s: string, i: nat): (j: nat)
    requires i <= |s|
    ensures i <= j <= |s|
    ensures !WordAt(s, j)
    decreases |s| - i
  {
    if WordAt(s, i) then WordEnd(s, i + 1) else i
  }

  /** `s[i..j]` is white space only. */
  predicate SpaceRun(s: string, i: nat, j: nat) {
    i <= j <= |s| && forall k | i <= k < j :: SpaceAt(s, k)
  }

  /** `s[i..j]` is word characters only. */
  predicate WordRun(s: string, i: nat, j: nat) {
    i <= j <= |s| && forall k | i <= k < j :: WordAt(s, k)
  }

  /** What `SpaceEnd` skips is white space. */
  lemma {:induction false} SpaceEndRun(s: string, i: nat)
    requires i <= |s|
    ensures SpaceRun(s, i, SpaceEnd(s, i))
    decreases |s| - i
  {
    if SpaceAt(s, i) {
      SpaceEndRun(s, i + 1);
    }
  }

  /** What `WordEnd` skips is word characters. */
  lemma {:induction false} WordEndRun(s: string, i: nat)
    requires i <= |s|
    ensures WordRun(s, i, WordEnd(s, i))
    decreases |s| - i
  {
    if WordAt(s, i) {
      WordEndRun(s, i + 1);
    }
  }

  predicate LiteralAt(s: string, i: nat, lit: string) {
    i + |lit| <= |s| && s[i..i + |lit|] == lit
  }

  datatype Kind = Attribute | Uniform

  function Keyword(kind: Kind): string {
    match kind
    case Attribute => "attribute"
    case Uniform => "uniform"
  }

  /** The type vocabulary of the pattern, in the order of its alternation. */
  const Formats: seq<string> :=
    ["float", "int", "bool", "vec2", "vec3", "vec4", "mat3", "mat4", "sampler2D", "sampler3D", "samplerCube"]

  /** The first of the alternatives `fs` spelled at `i`. */
  function FormatFrom(s: string, i: nat, fs: seq<string>): (r: Option<string>)
    ensures r.Some? ==> LiteralAt(s, i, r.value)
  {
    if |fs| == 0 then None
    else if LiteralAt(s, i, fs[0]) then Some(fs[0])
    else FormatFrom(s, i, fs[1..])
  }

  /** The type token at `i`: the first alternative of the vocabulary spelled there. */
  function FormatAt(s: string, i: nat): (r: Option<string>)
    ensures r.Some? ==> LiteralAt(s, i, r.value)
  {
    FormatFrom(s, i, Formats)
  }

  /** `FormatFrom` finds one of the alternatives, and finds none only when none is spelled. */
  lemma {:induction false} FormatFromFinds(s: string, i: nat, fs: seq<string>)
    ensures FormatFrom(s, i, fs).Some? ==> FormatFrom(s, i, fs).value in fs
    ensures FormatFrom(s, i, fs).None? ==> forall f | f in fs :: !LiteralAt(s, i, f)
    decreases |fs|
  {
    if |fs| > 0 && !LiteralAt(s, i, fs[0]) {
      FormatFromFinds(s, i, fs[1..]);
      assert forall f | f in fs :: f == fs[0] || f in fs[1..];
    }
  }

  /** The type token found is one of the vocabulary, and none is found only when none is spelled. */
  lemma FormatAtFinds(s: string, i: nat)
    ensures FormatAt(s, i).Some? ==> FormatAt(s, i).value in Formats && LiteralAt(s, i, FormatAt(s, i).value)
    ensures FormatAt(s, i).None? ==> forall f | f in Formats :: !LiteralAt(s, i, f)
  {
    FormatFromFinds(s, i, Formats);
  }

  /** One declaration found in the source: the four capture groups and the matched span. */
  datatype Declaration = Declaration(
    kind: Kind,                  // group 1
    format: string,              // group 2
    variable: string,            // group 3
    annotation: Option<string>,  // group 4, undefined when no `// !Name` follows
    start: nat,
    end: nat)

  predicate WellFormed(d: Declaration) {
    d.format in Formats && IsWord(d.variable)
  }

  /**
   * One round of the repeated group `(?:\s*\/\/\s*!\s*(\w+))` from `i`: the
   * span `[c, e)` of the name it captures, or `None` where it does not match.
   */
  function NextAnnotation(s: string, i: nat): (r: Option<(nat, nat)>)
    requires i <= |s|
    ensures r.Some? ==> i < r.value.0 < r.value.1 <= |s| && IsWord(s[r.value.0..r.value.1])
  {
    var a := SpaceEnd(s, i);
    if !(a + 2 <= |s| && s[a] == '/' && s[a + 1] == '/') then None
    else
      var b := SpaceEnd(s, a + 2);
      if b == |s| || s[b] != '!' then None
      else
        var c := SpaceEnd(s, b + 1);
        var e := WordEnd(s, c);
        if e == c then None
        else
          WordEndRun(s, c);
          SliceIsWord(s, c, e);
          Some((c, e))
  }

  /**
   * The repeated group from `i`: it repeats while another `// !Name`
   * follows, and the capture keeps the LAST name.
   */
  function Annotations(s: string, i: nat, last: Option<string>): (r: (Option<string>, nat))
    requires i <= |s|
    ensures i <= r.1 <= |s|
    ensures r.1 == i ==> r.0 == last
    decreases |s| - i
  {
    var next := NextAnnotation(s, i);
    if next.None? then (last, i)
    else Annotations(s, next.value.1, Some(s[next.value.0..next.value.1]))
  }

  /**
   * The end of a declaration as written: its variable is the word `s[c..e]`,
   * `;` follows it directly, and the annotations after the `;` give its
   * captured name and the end of the match.
   */
  predicate VariableTail(s: string, d: Declaration, c: nat, e: nat) {
    && c < e < |s| && WordRun(s, c, e) && s[e] == ';'
    && d.variable == s[c..e]
    && Annotations(s, e + 1, None) == (d.annotation, d.end)
  }

  /** Where the matcher stands inside the pattern, after the part matched so far. */
  datatype Stage =
    | Start                                           // at `\b`
    | AtKeyword                                       // before `(attribute|uniform)`
    | AfterKeyword(kind: Kind, a: nat)                // the keyword ends at `a`
    | AfterType(kind: Kind, format: string, t: nat)   // the type token ends at `t`
    | AtVariable(kind: Kind, format: string, c: nat)  // the variable name starts at `c`

  /** The positions a stage holds lie after the match start and inside `s`. */
  predicate StageIn(s: string, i: nat, at: Stage) {
    i <= |s| &&
    match at
    case Start => true
    case AtKeyword => true
    case AfterKeyword(_, a) => i < a <= |s|
    case AfterType(_, _, t) => i < t <= |s|
    case AtVariable(_, _, c) => i < c <= |s|
  }

  /** How many stages are left. */
  function StagesLeft(at: Stage): nat {
    match at
    case Start => 4
    case AtKeyword => 3
    case AfterKeyword(_, _) => 2
    case AfterType(_, _, _) => 1
    case AtVariable(_, _, _) => 0
  }

  /**
   * The rest of the pattern from stage `at` of a match that starts at `i`:
   * the keyword at a word boundary, `\s+`, the type token, `\s+`, the
   * variable name, `;` right after it, then the repeated annotation group.
   */
  function Match(s: string, i: nat, at: Stage): (r: Option<Declaration>)
    requires StageIn(s, i, at)
    ensures r.Some? ==> r.value.start == i < r.value.end <= |s|
    decreases StagesLeft(at)
  {
    match at
    case Start =>
      if i > 0 && IsWordChar(s[i - 1]) then None
      else Match(s, i, AtKeyword)
    case AtKeyword =>
      var kind := KeywordAt(s, i);
      if kind.None? then None
      else Match(s, i, AfterKeyword(kind.value, i + |Keyword(kind.value)|))
    case AfterKeyword(kind, a) =>
      var b := SpaceEnd(s, a);
      var format := FormatAt(s, b);
      if b == a || format.None? then None
      else Match(s, i, AfterType(kind, format.value, b + |format.value|))
    case AfterType(kind, format, t) =>
      var c := SpaceEnd(s, t);
      if c == t then None
      else Match(s, i, AtVariable(kind, format, c))
    case AtVariable(kind, format, c) =>
      var e := WordEnd(s, c);
      if e == c || e == |s| || s[e] != ';' then None
      else
        var annotations := Annotations(s, e + 1, None);
        Some(Declaration(kind, format, s[c..e], annotations.0, i, annotations.1))
  }

  /** The match of the pattern that starts exactly at position `i`, if any. */
  function MatchAt(s: string, i: nat): (r: Option<Declaration>)
    requires i <= |s|
    ensures r.Some? ==> r.value.start == i < r.value.end <= |s|
  {
    Match(s, i, Start)
  }

  /** The keyword spelled at `i`, tried in the order of the alternation `attribute|uniform`. */
  function KeywordAt(s: string, i: nat): (r: Option<Kind>)
    ensures r.Some? ==> LiteralAt(s, i, Keyword(r.value))
    ensures r.None? ==> !LiteralAt(s, i, "attribute") && !LiteralAt(s, i, "uniform")
  {
    if LiteralAt(s, i, Keyword(Attribute)) then Some(Attribute)
    else if LiteralAt(s, i, Keyword(Uniform)) then Some(Uniform)
    else None
  }

  lemma SliceIsWord(s: string, d: nat, e: nat)
    requires d < e <= |s|
    requires WordRun(s, d, e)
    ensures IsWord(s[d..e])
  {
    forall k | 0 <= k < e - d ensures IsWordChar(s[d..e][k]) {
      assert WordAt(s, d + k);
    }
  }

  /** `regExp.exec(source)` with `lastIndex == from`: the leftmost match at or after `from`. */
  function FindMatch(s: string, from: nat): (r: Option<Declaration>)
    requires from <= |s|
    ensures r.Some? ==> from <= r.value.start < r.value.end <= |s|
    decreases |s| - from
  {
    var here := MatchAt(s, from);
    if here.Some? then here
    else if from == |s| then None
    else FindMatch(s, from + 1)
  }

  /** What `FindMatch` returns is the match of the pattern at the position where it starts. */
  lemma {:induction false} FindMatchIsMatch(s: string, from: nat)
    requires from <= |s|
    ensures FindMatch(s, from).Some? ==> MatchAt(s, FindMatch(s, from).value.start) == FindMatch(s, from)
    decreases |s| - from
  {
    if MatchAt(s, from).None? && from < |s| {
      FindMatchIsMatch(s, from + 1);
    }
  }

  /** `FindMatch` finds a match whenever one starts at some `k` from `from` on, and none later than `k`. */
  lemma {:induction false} FindMatchIsLeftmost(s: string, from: nat, k: nat)
    requires from <= k <= |s| && MatchAt(s, k).Some?
    ensures FindMatch(s, from).Some? && FindMatch(s, from).value.start <= k
    decreases k - from
  {
    if MatchAt(s, from).None? {
      FindMatchIsLeftmost(s, from + 1, k);
    }
  }

  /** The matches repeated `exec` calls return from `from` on, each search resuming where the last match ended. */
  function MatchesFrom(s: string, from: nat): (ds: seq<Declaration>)
    requires from <= |s|
    ensures InOrder(s, from, ds)
    decreases |s| - from
  {
    var m := FindMatch(s, from);
    if m.None? then []
    else
      FoundWellFormed(s, from);
      var rest := MatchesFrom(s, m.value.end);
      InOrderCons(s, from, m.value, rest);
      [m.value] + rest
  }

  /** Matches in order from `from`: each well formed, inside `s`, and none overlapping the next. */
  predicate InOrder(s: string, from: nat, ds: seq<Declaration>) {
    (forall j | 0 <= j < |ds| :: WellFormed(ds[j]) && from <= ds[j].start < ds[j].end <= |s|)
    && (forall j | 0 <= j < |ds| - 1 :: ds[j].end <= ds[j + 1].start)
  }

  /** A well-formed match followed by matches in order from its end are matches in order. */
  lemma InOrderCons(s: string, from: nat, d: Declaration, rest: seq<Declaration>)
    requires WellFormed(d) && from <= d.start < d.end <= |s|
    requires InOrder(s, d.end, rest)
    ensures InOrder(s, from, [d] + rest)
  {
  }

  lemma FoundWellFormed(s: string, from: nat)
    requires from <= |s|
    ensures FindMatch(s, from).Some? ==> WellFormed(FindMatch(s, from).value)
  {
    FindMatchIsMatch(s, from);
    var m := FindMatch(s, from);
    if m.Some? {
      MatchAtWellFormed(s, m.value.start);
    }
  }

  /** The scan continues after the match it finds, or ends where none is left. */
  lemma MatchesFromUnfold(s: string, from: nat)
    requires from <= |s|
    ensures FindMatch(s, from).None? ==> MatchesFrom(s, from) == []
    ensures FindMatch(s, from).Some? ==>
      MatchesFrom(s, from) == [FindMatch(s, from).value] + MatchesFrom(s, FindMatch(s, from).value.end)
  {
  }

  /** All declarations in a shader source, in source order. */
  function Declarations(source: string): (ds: seq<Declaration>)
    ensures forall j | 0 <= j < |ds| :: WellFormed(ds[j]) && ds[j].end <= |source|
  {
    MatchesFrom(source, 0)
  }

  /**
   * The declarations found are exactly the ones written out in the source,
   * except one that starts inside the span of a declaration found before it
   * (such as a keyword captured as an annotation name).
   */
  lemma DeclarationsExact(source: string, d: Declaration)
    ensures d in Declarations(source) ==> Spelled(source, d)
    ensures Spelled(source, d) && (forall m | m in Declarations(source) :: !(m.start < d.start < m.end)) ==>
              d in Declarations(source)
  {
    MatchesFromSpelled(source, 0);
    if Spelled(source, d) && (forall m | m in Declarations(source) :: !(m.start < d.start < m.end)) {
      MatchesFromComplete(source, 0, d);
    }
  }

  /** The source `uniform mat4 <variable>; // !<name>`, as in `uniform mat4 worldMatrix; // !WORLD_MATRIX`. */
  function AnnotatedUniform(variable: string, name: string): string {
    "uniform mat4 " + variable + "; // !" + name
  }

  /**
   * `uniform mat4 worldMatrix; // !WORLD_MATRIX` declares the uniform
   * `worldMatrix` under the binding name `WORLD_MATRIX`, and likewise for
   * every other variable and binding name.
   */
  lemma AnnotatedUniformDeclares(variable: string, name: string)
    requires IsWord(variable) && IsWord(name)
    ensures var s := AnnotatedUniform(variable, name);
      Declarations(s) == [Declaration(Uniform, "mat4", variable, Some(name), 0, |s|)]
  {
    var s := AnnotatedUniform(variable, name);
    var e := 13 + |variable|;
    var d := Declaration(Uniform, "mat4", variable, Some(name), 0, |s|);
    AnnotatedUniformHead(variable, name);
    AnnotatedUniformTail(variable, name);
    SpelledMatches(s, d, 8, 13, e);
    assert FindMatch(s, 0) == Some(d);
    AnnotatedUniformEnds(variable, name);
    MatchesFromUnfold(s, 0);
    MatchesFromUnfold(s, |s|);
  }

  /** The worked case: `uniform mat4 worldMatrix; // !WORLD_MATRIX` files `worldMatrix` under `WORLD_MATRIX`. */
  lemma WorldMatrixDeclared()
    ensures Declarations(AnnotatedUniform("worldMatrix", "WORLD_MATRIX"))
      == [Declaration(Uniform, "mat4", "worldMatrix", Some("WORLD_MATRIX"), 0, 42)]
  {
    WorldMatrixWords();
    AnnotatedUniformDeclares("worldMatrix", "WORLD_MATRIX");
  }

  lemma WorldMatrixWords()
    ensures IsWord("worldMatrix") && IsWord("WORLD_MATRIX")
  {
    forall i | 0 <= i < 11 ensures IsWordChar("worldMatrix"[i]) {
    }
    forall i | 0 <= i < 12 ensures IsWordChar("WORLD_MATRIX"[i]) {
    }
  }

  lemma AnnotatedUniformHead(variable: string, name: string)
    ensures KeywordSpelled(AnnotatedUniform(variable, name), 0, Uniform)
    ensures TypeSpelled(AnnotatedUniform(variable, name), "mat4", 7, 8)
    ensures GapSpelled(AnnotatedUniform(variable, name), 12, 13)
  {
    var s := AnnotatedUniform(variable, name);
    assert s[0..7] == "uniform";
    assert s[8..12] == Formats[7];
  }

  lemma AnnotatedUniformTail(variable: string, name: string)
    requires IsWord(variable) && IsWord(name)
    ensures var s := AnnotatedUniform(variable, name);
      VariableTail(s, Declaration(Uniform, "mat4", variable, Some(name), 0, |s|), 13, 13 + |variable|)
  {
    var s := AnnotatedUniform(variable, name);
    var e := 13 + |variable|;
    assert s[13..e] == variable;
    forall k | 13 <= k < e ensures WordAt(s, k) {
      assert s[k] == variable[k - 13];
    }
    assert s[e] == ';';
    AnnotatedUniformName(variable, name);
  }

  lemma AnnotatedUniformName(variable: string, name: string)
    requires IsWord(name)
    ensures var s := AnnotatedUniform(variable, name);
      Annotations(s, 14 + |variable|, None) == (Some(name), |s|)
  {
    var s := AnnotatedUniform(variable, name);
    var e := 13 + |variable|;
    AnnotatedUniformNext(variable, name);
    assert s[e + 6..|s|] == name;
    SpaceEndIs(s, |s|, |s|);
    assert Annotations(s, |s|, Some(name)) == (Some(name), |s|);
    assert Annotations(s, e + 1, None) == Annotations(s, |s|, Some(name));
  }

  lemma AnnotatedUniformNext(variable: string, name: string)
    requires IsWord(name)
    ensures var s := AnnotatedUniform(variable, name);
      NextAnnotation(s, 14 + |variable|) == Some((19 + |variable|, |s|))
  {
    var s := AnnotatedUniform(variable, name);
    var e := 13 + |variable|;
    assert s[e + 1] == ' ' && s[e + 2] == '/' && s[e + 3] == '/' && s[e + 4] == ' ' && s[e + 5] == '!';
    SpaceEndIs(s, e + 1, e + 2);
    SpaceEndIs(s, e + 4, e + 5);
    forall k | e + 6 <= k < |s| ensures WordAt(s, k) {
      assert s[k] == name[k - e - 6];
    }
    assert WordAt(s, e + 6);
    WordCharIsNoSpace(s[e + 6]);
    SpaceEndIs(s, e + 6, e + 6);
    WordEndIs(s, e + 6, |s|);
  }

  lemma AnnotatedUniformEnds(variable: string, name: string)
    requires IsWord(name)
    ensures FindMatch(AnnotatedUniform(variable, name), |AnnotatedUniform(variable, name)|).None?
  {
    var s := AnnotatedUniform(variable, name);
    assert s[|s| - 1] == name[|name| - 1];
  }

  lemma {:induction false} SpaceEndIs(s: string, i: nat, j: nat)
    requires SpaceRun(s, i, j)
    requires !SpaceAt(s, j)
    ensures SpaceEnd(s, i) == j
    decreases j - i
  {
    if i < j {
      SpaceEndIs(s, i + 1, j);
    }
  }

  lemma {:induction false} WordEndIs(s: string, i: nat, j: nat)
    requires WordRun(s, i, j)
    requires !WordAt(s, j)
    ensures WordEnd(s, i) == j
    decreases j - i
  {
    if i < j {
      WordEndIs(s, i + 1, j);
    }
  }

  /** The keyword of `kind` is written at `i`, at a word boundary. */
  predicate KeywordSpelled(s: string, i: nat, kind: Kind) {
    i <= |s| && (i == 0 || !IsWordChar(s[i - 1])) && LiteralAt(s, i, Keyword(kind))
  }

  /** White space runs from `a` to `b`, where a type of the vocabulary is written. */
  predicate TypeSpelled(s: string, format: string, a: nat, b: nat) {
    a < b && SpaceRun(s, a, b) && format in Formats && LiteralAt(s, b, format)
  }

  /** White space runs from `t`, the end of the type token, to `c`, the start of the variable. */
  predicate GapSpelled(s: string, t: nat, c: nat) {
    t < c && SpaceRun(s, t, c)
  }

  /**
   * `d` is written out in `s` with its type token at `b` and its variable at
   * `[c, e)`: the keyword at a word boundary, at least one space, a type of the
   * vocabulary, at least one space, the variable, `;` right after it, and then
   * the chain of `// !Name` annotations, of which the last name is captured
   * and whose end is the end of the match.
   */
  predicate SpelledWith(s: string, d: Declaration, b: nat, c: nat, e: nat) {
    && KeywordSpelled(s, d.start, d.kind)
    && TypeSpelled(s, d.format, d.start + |Keyword(d.kind)|, b)
    && GapSpelled(s, b + |d.format|, c)
    && VariableTail(s, d, c, e)
  }

  /** `d` is a declaration written out in `s` at `d.start`. */
  ghost predicate Spelled(s: string, d: Declaration) {
    exists b: nat, c: nat, e: nat :: SpelledWith(s, d, b, c, e)
  }

  /** No type of the vocabulary is spelled where another one is. */
  lemma OneFormatAt(s: string, b: nat, f: string, g: string)
    requires f in Formats && g in Formats
    requires LiteralAt(s, b, f) && LiteralAt(s, b, g)
    ensures f == g
  {
    assert f[0] == s[b] == g[0];
    if |f| > 3 && |g| > 3 {
      assert f[3] == s[b + 3] == g[3];
    }
    if |f| > 7 && |g| > 7 {
      assert f[7] == s[b + 7] == g[7];
    }
  }

  lemma FormatAtIs(s: string, b: nat, f: string)
    requires f in Formats && LiteralAt(s, b, f)
    ensures FormatAt(s, b) == Some(f)
  {
    FormatAtFinds(s, b);
    var r := FormatAt(s, b);
    OneFormatAt(s, b, r.value, f);
  }

  /** A type token begins with a letter, so no white space run reaches into it. */
  lemma FormatStartsWithLetter(s: string, b: nat, f: string)
    requires f in Formats && LiteralAt(s, b, f)
    ensures WordAt(s, b) && !SpaceAt(s, b)
  {
    assert s[b] == f[0];
  }

  lemma WordCharIsNoSpace(ch: char)
    requires IsWordChar(ch)
    ensures !IsSpace(ch)
  {
  }

  /** The pattern matches at `i` exactly when a declaration is written out there, and then it captures that declaration. */
  lemma MatchAtSpelled(s: string, i: nat, d: Declaration)
    requires i <= |s|
    ensures MatchAt(s, i) == Some(d) <==> d.start == i && Spelled(s, d)
  {
    if MatchAt(s, i) == Some(d) {
      MatchAtWitness(s, i);
    }
    if d.start == i && Spelled(s, d) {
      var b: nat, c: nat, e: nat :| SpelledWith(s, d, b, c, e);
      SpelledMatches(s, d, b, c, e);
    }
  }

  /** What the pattern matches at `i` is written out there. */
  lemma {:induction false} MatchAtWitness(s: string, i: nat)
    requires i <= |s| && MatchAt(s, i).Some?
    ensures Spelled(s, MatchAt(s, i).value)
  {
    var d := MatchAt(s, i).value;
    var kind, a := StartWitness(s, i, d);
    var b, c, e := KeywordWitness(s, i, kind, a, d);
    assert SpelledWith(s, d, b, c, e);
  }

  /** A match starts with its keyword at a word boundary, and the rest of the pattern matches after it. */
  lemma {:induction false} StartWitness(s: string, i: nat, d: Declaration) returns (kind: Kind, a: nat)
    requires i <= |s| && Match(s, i, Start) == Some(d)
    ensures KeywordSpelled(s, i, kind) && a == i + |Keyword(kind)|
    ensures StageIn(s, i, AfterKeyword(kind, a)) && Match(s, i, AfterKeyword(kind, a)) == Some(d)
  {
    assert Match(s, i, AtKeyword) == Some(d);
    kind := KeywordAt(s, i).value;
    a := i + |Keyword(kind)|;
  }

  /** The white space `\s+` skips, followed by the type token the alternation finds. */
  lemma TypeFound(s: string, a: nat, b: nat, f: string)
    requires a <= |s| && b == SpaceEnd(s, a) && a < b && FormatAt(s, b) == Some(f)
    ensures TypeSpelled(s, f, a, b)
  {
    FormatAtFinds(s, b);
    SpaceEndRun(s, a);
  }

  /** The white space `\s+` skips. */
  lemma GapFound(s: string, t: nat, c: nat)
    requires t <= |s| && c == SpaceEnd(s, t) && t < c
    ensures GapSpelled(s, t, c)
  {
    SpaceEndRun(s, t);
  }

  /** From the keyword on, a match has its type token after white space, and goes on after it. */
  lemma {:induction false} KeywordWitness(s: string, i: nat, kind: Kind, a: nat, d: Declaration) returns (b: nat, c: nat, e: nat)
    requires StageIn(s, i, AfterKeyword(kind, a)) && Match(s, i, AfterKeyword(kind, a)) == Some(d)
    ensures d.start == i && d.kind == kind
    ensures TypeSpelled(s, d.format, a, b) && GapSpelled(s, b + |d.format|, c) && VariableTail(s, d, c, e)
  {
    b := SpaceEnd(s, a);
    var f := FormatAt(s, b).value;
    TypeFound(s, a, b, f);
    c, e := TypeWitness(s, i, kind, f, b + |f|, d);
  }

  /** From the type token on, a match has its variable after white space, and goes on after it. */
  lemma {:induction false} TypeWitness(s: string, i: nat, kind: Kind, format: string, t: nat, d: Declaration) returns (c: nat, e: nat)
    requires StageIn(s, i, AfterType(kind, format, t)) && Match(s, i, AfterType(kind, format, t)) == Some(d)
    ensures d.start == i && d.kind == kind && d.format == format
    ensures GapSpelled(s, t, c) && VariableTail(s, d, c, e)
  {
    c := SpaceEnd(s, t);
    GapFound(s, t, c);
    e := VariableWitness(s, i, kind, format, c, d);
  }

  /** From the variable on, a match is the variable, `;` and the annotation chain. */
  lemma {:induction false} VariableWitness(s: string, i: nat, kind: Kind, format: string, c: nat, d: Declaration) returns (e: nat)
    requires StageIn(s, i, AtVariable(kind, format, c)) && Match(s, i, AtVariable(kind, format, c)) == Some(d)
    ensures d.start == i && d.kind == kind && d.format == format && VariableTail(s, d, c, e)
  {
    e := WordEnd(s, c);
    WordEndRun(s, c);
  }

  /** The pattern matches a declaration written out in `s` where it starts, and captures it. */
  lemma {:induction false} SpelledMatches(s: string, d: Declaration, b: nat, c: nat, e: nat)
    requires SpelledWith(s, d, b, c, e)
    ensures MatchAt(s, d.start) == Some(d)
  {
    var a := d.start + |Keyword(d.kind)|;
    TypeEnds(s, a, b, d.format);
    GapEnds(s, b + |d.format|, c, e);
    WordEndIs(s, c, e);
    TypeMatches(s, d, a, b, c, e);
    StartMatches(s, d, a);
  }

  /** Where a type is written after white space, `\s+` stops at it and the alternation finds it. */
  lemma TypeEnds(s: string, a: nat, b: nat, f: string)
    requires TypeSpelled(s, f, a, b)
    ensures SpaceEnd(s, a) == b && FormatAt(s, b) == Some(f)
  {
    FormatStartsWithLetter(s, b, f);
    SpaceEndIs(s, a, b);
    FormatAtIs(s, b, f);
  }

  /** Where a word follows white space, `\s+` stops at the word. */
  lemma GapEnds(s: string, t: nat, c: nat, e: nat)
    requires GapSpelled(s, t, c) && c < e && WordRun(s, c, e)
    ensures SpaceEnd(s, t) == c
  {
    assert WordAt(s, c);
    WordCharIsNoSpace(s[c]);
    SpaceEndIs(s, t, c);
  }

  /** The variable `\w+` reads ends at `e` with `;`, followed by the annotation chain of `d`. */
  predicate VariableRead(s: string, d: Declaration, c: nat, e: nat) {
    && c < e < |s| && WordEnd(s, c) == e && s[e] == ';'
    && d.variable == s[c..e]
    && Annotations(s, e + 1, None) == (d.annotation, d.end)
  }

  /** At the word boundary before a keyword, the pattern reads it and goes on after it. */
  lemma {:induction false} StartMatches(s: string, d: Declaration, a: nat)
    requires KeywordSpelled(s, d.start, d.kind) && a == d.start + |Keyword(d.kind)|
    requires StageIn(s, d.start, AfterKeyword(d.kind, a)) && Match(s, d.start, AfterKeyword(d.kind, a)) == Some(d)
    ensures MatchAt(s, d.start) == Some(d)
  {
    if d.kind == Uniform {
      KeywordsExclusive(s, d.start);
    }
    assert Match(s, d.start, AtKeyword) == Some(d);
  }

  /** After the keyword, the pattern captures the declaration whose parts `\s+`, the alternation and `\w+` read. */
  lemma {:induction false} TypeMatches(s: string, d: Declaration, a: nat, b: nat, c: nat, e: nat)
    requires d.start < a < b && a <= |s| && SpaceEnd(s, a) == b && FormatAt(s, b) == Some(d.format)
    requires b + |d.format| < c && SpaceEnd(s, b + |d.format|) == c && VariableRead(s, d, c, e)
    ensures Match(s, d.start, AfterKeyword(d.kind, a)) == Some(d)
  {
    GapMatches(s, d, b + |d.format|, c, e);
  }

  /** After the type token, the pattern captures the declaration whose variable `\w+` reads. */
  lemma {:induction false} GapMatches(s: string, d: Declaration, t: nat, c: nat, e: nat)
    requires VariableRead(s, d, c, e) && d.start < t < c && SpaceEnd(s, t) == c
    ensures Match(s, d.start, AfterType(d.kind, d.format, t)) == Some(d)
  {
    VariableMatches(s, d, c, e);
  }

  /** At the variable, the pattern captures the declaration whose variable `\w+` reads. */
  lemma {:induction false} VariableMatches(s: string, d: Declaration, c: nat, e: nat)
    requires d.start < c && VariableRead(s, d, c, e)
    ensures Match(s, d.start, AtVariable(d.kind, d.format, c)) == Some(d)
  {
  }

  /**
   * A match starts at a word boundary with its keyword, names a type of the
   * vocabulary, and its variable is a word.
   */
  lemma {:induction false} MatchAtWellFormed(s: string, i: nat)
    requires i <= |s|
    ensures MatchAt(s, i).Some? ==>
              WellFormed(MatchAt(s, i).value)
              && LiteralAt(s, i, Keyword(MatchAt(s, i).value.kind)) && (i == 0 || !IsWordChar(s[i - 1]))
  {
    if MatchAt(s, i).Some? {
      var d := MatchAt(s, i).value;
      MatchAtWitness(s, i);
      var b: nat, c: nat, e: nat :| SpelledWith(s, d, b, c, e);
      SliceIsWord(s, c, e);
    }
  }

  lemma KeywordsExclusive(s: string, i: nat)
    requires LiteralAt(s, i, "uniform")
    ensures !LiteralAt(s, i, "attribute")
  {
    assert s[i..i + 7][0] == s[i];
  }

  /** Every match the repeated `exec` calls return is a declaration written out in the source. */
  lemma {:induction false} MatchesFromSpelled(s: string, from: nat)
    requires from <= |s|
    ensures forall d | d in MatchesFrom(s, from) :: Spelled(s, d)
    decreases |s| - from
  {
    MatchesFromUnfold(s, from);
    var m := FindMatch(s, from);
    if m.Some? {
      FindMatchIsMatch(s, from);
      MatchAtSpelled(s, m.value.start, m.value);
      MatchesFromSpelled(s, m.value.end);
    }
  }

  /**
   * A declaration written out at or after `from` is among the matches, unless
   * it starts strictly inside a match found before it.
   */
  lemma {:induction false} MatchesFromComplete(s: string, from: nat, d: Declaration)
    requires from <= |s| && from <= d.start
    requires Spelled(s, d)
    requires forall m | m in MatchesFrom(s, from) :: !(m.start < d.start < m.end)
    ensures d in MatchesFrom(s, from)
    decreases |s| - from
  {
    var b: nat, c: nat, e: nat :| SpelledWith(s, d, b, c, e);
    MatchAtSpelled(s, d.start, d);
    MatchesFromUnfold(s, from);
    FindMatchIsLeftmost(s, from, d.start);
    FindMatchIsMatch(s, from);
    var m := FindMatch(s, from).value;
    if m.start == d.start {
      assert m == d;
    } else {
      assert m in MatchesFrom(s, from);
      assert m.end <= d.start;
      MatchesFromComplete(s, m.end, d);
    }
  }

  /**
   * The repeated group keeps the LAST name: when at least one `// !Name`
   * follows, the captured name is a word and is the text that ends the
   * consumed span.
   */
  lemma {:induction false} AnnotationIsLast(s: string, i: nat, last: Option<string>)
    requires i <= |s|
    ensures var r := Annotations(s, i, last);
      r.1 > i ==> r.0.Some? && IsWord(r.0.value) && i < r.1 - |r.0.value| && s[r.1 - |r.0.value|..r.1] == r.0.value
    decreases |s| - i
  {
    var next := NextAnnotation(s, i);
    if next.Some? {
      var (c, e) := next.value;
      AnnotationIsLast(s, e, Some(s[c..e]));
    }
  }
}
