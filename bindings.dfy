/**
 * What the declaration scan of TestDynamic/WebContent/goo/renderer/Shader.js:227-256
 * does to a shader's binding tables, as functions of the scanned declarations:
 * each declaration is filed under its binding name in the attribute or the
 * uniform mapping, sampler uniforms are counted, and a binding name with a
 * default callback gets that callback.
 */
module Bindings {
  import opened Wrappers
  import opened GlslScan
  import opened Callbacks
  import StringUtil

  /** The key a declaration is filed under: its `// !Name` annotation, else its variable name. */
  function BindingName(d: Declaration): string {
    if d.annotation.Some? then d.annotation.value else d.variable
  }

  /** A uniform whose type token begins with `sampler` (`format.indexOf("sampler") === 0`). */
  predicate IsSampler(d: Declaration) {
    d.kind == Uniform && StringUtil.IndexOf(d.format, "sampler", 0) == 0
  }

  /** The three sampler types are exactly the formats that count as textures. */
  lemma SamplerFormats(d: Declaration)
    requires WellFormed(d) && d.kind == Uniform
    ensures IsSampler(d) <==> d.format in ["sampler2D", "sampler3D", "samplerCube"]
  {
  }

  /** `callbackOrder` lists the keys of `callbacks` once each, in the order they were first set. */
  predicate OrderValid(order: seq<string>, callbacks: map<string, Callback>) {
    (forall i, j | 0 <= i < j < |order| :: order[i] != order[j])
    && (forall n | n in order :: n in callbacks)
    && (forall n | n in callbacks :: n in order)
  }

  /** The state the scan changes: the two mappings, the texture counter and the current callbacks with their key order. */
  datatype Tables = Tables(
    attributeMapping: map<string, string>,
    uniformMapping: map<string, string>,
    textureCount: nat,
    currentCallbacks: map<string, Callback>,
    callbackOrder: seq<string>)

  /**
   * `object[name] = value` on the callbacks object: the value is replaced, and
   * a key that is new goes to the end of the enumeration order.
   */
  function SetCallback(t: Tables, name: string, cb: Callback): (r: Tables)
    requires OrderValid(t.callbackOrder, t.currentCallbacks)
    ensures OrderValid(r.callbackOrder, r.currentCallbacks)
    ensures r.currentCallbacks.Keys == t.currentCallbacks.Keys + {name} && r.currentCallbacks[name] == cb
    ensures forall n | n in t.currentCallbacks && n != name :: r.currentCallbacks[n] == t.currentCallbacks[n]
    ensures name in t.currentCallbacks ==> r.callbackOrder == t.callbackOrder
    ensures name !in t.currentCallbacks ==> r.callbackOrder == t.callbackOrder + [name]
    ensures r.attributeMapping == t.attributeMapping && r.uniformMapping == t.uniformMapping
    ensures r.textureCount == t.textureCount
  {
    var order := if name in t.currentCallbacks then t.callbackOrder else t.callbackOrder + [name];
    t.(currentCallbacks := t.currentCallbacks[name := cb], callbackOrder := order)
  }

  /** One pass of the scan loop's body (lines 232-252) for declaration `d`. */
  function Enroll(t: Tables, d: Declaration, defaults: map<string, Callback>): (r: Tables)
    requires OrderValid(t.callbackOrder, t.currentCallbacks)
    ensures OrderValid(r.callbackOrder, r.currentCallbacks)
  {
    var name := BindingName(d);
    var filed :=
      if d.kind == Attribute then t.(attributeMapping := t.attributeMapping[name := d.variable])
      else t.(uniformMapping := t.uniformMapping[name := d.variable],
              textureCount := if IsSampler(d) then t.textureCount + 1 else t.textureCount);
    if name in defaults then SetCallback(filed, name, defaults[name]) else filed
  }

  /** The scan of declarations `ds`, in order, starting from tables `t`. */
  function ScanAll(t: Tables, ds: seq<Declaration>, defaults: map<string, Callback>): (r: Tables)
    requires OrderValid(t.callbackOrder, t.currentCallbacks)
    ensures OrderValid(r.callbackOrder, r.currentCallbacks)
    decreases |ds|
  {
    if ds == [] then t else Enroll(ScanAll(t, ds[..|ds| - 1], defaults), ds[|ds| - 1], defaults)
  }

  /** Scanning one more declaration enrolls it in the tables the earlier ones left. */
  lemma ScanAllSnoc(t: Tables, ds: seq<Declaration>, d: Declaration, defaults: map<string, Callback>)
    requires OrderValid(t.callbackOrder, t.currentCallbacks)
    ensures ScanAll(t, ds + [d], defaults) == Enroll(ScanAll(t, ds, defaults), d, defaults)
  {
  }

  /** The binding names of the declarations of one kind, each with the variable of its last declaration. */
  function Table(ds: seq<Declaration>, kind: Kind): map<string, string>
    decreases |ds|
  {
    if ds == [] then map[]
    else
      var d := ds[|ds| - 1];
      var before := Table(ds[..|ds| - 1], kind);
      if d.kind == kind then before[BindingName(d) := d.variable] else before
  }

  function SamplerCount(ds: seq<Declaration>): nat
    decreases |ds|
  {
    if ds == [] then 0 else SamplerCount(ds[..|ds| - 1]) + (if IsSampler(ds[|ds| - 1]) then 1 else 0)
  }

  /** The default callbacks the binding names of `ds` pick up. */
  function Wired(ds: seq<Declaration>, defaults: map<string, Callback>): map<string, Callback>
    decreases |ds|
  {
    if ds == [] then map[]
    else
      var name := BindingName(ds[|ds| - 1]);
      var before := Wired(ds[..|ds| - 1], defaults);
      if name in defaults then before[name := defaults[name]] else before
  }

  /** One declaration's effect on each part of the tables. */
  lemma EnrollEffect(t: Tables, d: Declaration, defaults: map<string, Callback>)
    requires OrderValid(t.callbackOrder, t.currentCallbacks)
    ensures var r := Enroll(t, d, defaults);
      && r.attributeMapping == (if d.kind == Attribute then t.attributeMapping[BindingName(d) := d.variable] else t.attributeMapping)
      && r.uniformMapping == (if d.kind == Uniform then t.uniformMapping[BindingName(d) := d.variable] else t.uniformMapping)
      && r.textureCount == t.textureCount + (if IsSampler(d) then 1 else 0)
      && r.currentCallbacks == (if BindingName(d) in defaults then t.currentCallbacks[BindingName(d) := defaults[BindingName(d)]] else t.currentCallbacks)
  {
  }

  lemma {:induction false} ScanAttributes(t: Tables, ds: seq<Declaration>, defaults: map<string, Callback>)
    requires OrderValid(t.callbackOrder, t.currentCallbacks)
    ensures ScanAll(t, ds, defaults).attributeMapping == t.attributeMapping + Table(ds, Attribute)
    decreases |ds|
  {
    if ds != [] {
      var init := ds[..|ds| - 1];
      var d := ds[|ds| - 1];
      ScanAttributes(t, init, defaults);
      EnrollEffect(ScanAll(t, init, defaults), d, defaults);
      if d.kind == Attribute {
        UnionUpdate(t.attributeMapping, Table(init, Attribute), BindingName(d), d.variable);
      }
    }
  }

  lemma {:induction false} ScanUniforms(t: Tables, ds: seq<Declaration>, defaults: map<string, Callback>)
    requires OrderValid(t.callbackOrder, t.currentCallbacks)
    ensures ScanAll(t, ds, defaults).uniformMapping == t.uniformMapping + Table(ds, Uniform)
    decreases |ds|
  {
    if ds != [] {
      var init := ds[..|ds| - 1];
      var d := ds[|ds| - 1];
      ScanUniforms(t, init, defaults);
      EnrollEffect(ScanAll(t, init, defaults), d, defaults);
      if d.kind == Uniform {
        UnionUpdate(t.uniformMapping, Table(init, Uniform), BindingName(d), d.variable);
      }
    }
  }

  lemma {:induction false} ScanCount(t: Tables, ds: seq<Declaration>, defaults: map<string, Callback>)
    requires OrderValid(t.callbackOrder, t.currentCallbacks)
    ensures ScanAll(t, ds, defaults).textureCount == t.textureCount + SamplerCount(ds)
    decreases |ds|
  {
    if ds != [] {
      var init := ds[..|ds| - 1];
      ScanCount(t, init, defaults);
      EnrollEffect(ScanAll(t, init, defaults), ds[|ds| - 1], defaults);
    }
  }

  lemma {:induction false} ScanCallbacks(t: Tables, ds: seq<Declaration>, defaults: map<string, Callback>)
    requires OrderValid(t.callbackOrder, t.currentCallbacks)
    ensures ScanAll(t, ds, defaults).currentCallbacks == t.currentCallbacks + Wired(ds, defaults)
    decreases |ds|
  {
    if ds != [] {
      var init := ds[..|ds| - 1];
      var prev := ScanAll(t, init, defaults);
      var name := BindingName(ds[|ds| - 1]);
      ScanCallbacks(t, init, defaults);
      EnrollEffect(prev, ds[|ds| - 1], defaults);
      if name in defaults {
        UnionUpdate(t.currentCallbacks, Wired(init, defaults), name, defaults[name]);
      }
    }
  }

  /** Updating a union updates its right-hand side. */
  lemma UnionUpdate<K, V>(m: map<K, V>, w: map<K, V>, k: K, v: V)
    ensures (m + w)[k := v] == m + w[k := v]
  {
  }

  /**
   * The scan in closed form: each mapping gains the table of its own kind of
   * declaration (later entries replacing earlier ones and the old contents),
   * the counter grows by the number of samplers, and the callbacks gain the
   * defaults of the scanned binding names.
   */
  lemma ScanAllEffect(t: Tables, ds: seq<Declaration>, defaults: map<string, Callback>)
    requires OrderValid(t.callbackOrder, t.currentCallbacks)
    ensures var r := ScanAll(t, ds, defaults);
      && r.attributeMapping == t.attributeMapping + Table(ds, Attribute)
      && r.uniformMapping == t.uniformMapping + Table(ds, Uniform)
      && r.textureCount == t.textureCount + SamplerCount(ds)
      && r.currentCallbacks == t.currentCallbacks + Wired(ds, defaults)
  {
    ScanAttributes(t, ds, defaults);
    ScanUniforms(t, ds, defaults);
    ScanCount(t, ds, defaults);
    ScanCallbacks(t, ds, defaults);
  }

  /** A binding name is in a table exactly when some declaration of that kind carries it. */
  lemma {:induction false} TableKeys(ds: seq<Declaration>, kind: Kind, name: string)
    ensures name in Table(ds, kind) <==> exists j | 0 <= j < |ds| :: ds[j].kind == kind && BindingName(ds[j]) == name
    decreases |ds|
  {
    if ds != [] {
      var init := ds[..|ds| - 1];
      TableKeys(init, kind, name);
      if exists j | 0 <= j < |init| :: init[j].kind == kind && BindingName(init[j]) == name {
        var j :| 0 <= j < |init| && init[j].kind == kind && BindingName(init[j]) == name;
        assert ds[j] == init[j];
      }
      if exists j | 0 <= j < |ds| :: ds[j].kind == kind && BindingName(ds[j]) == name {
        var j :| 0 <= j < |ds| && ds[j].kind == kind && BindingName(ds[j]) == name;
        if j < |init| {
          assert init[j] == ds[j];
        }
      }
    }
  }

  /** The last declaration of a kind under a binding name decides its variable: a later one overwrites an earlier one. */
  lemma {:induction false} TableLastWins(ds: seq<Declaration>, kind: Kind, j: nat)
    requires j < |ds| && ds[j].kind == kind
    requires forall k | j < k < |ds| :: !(ds[k].kind == kind && BindingName(ds[k]) == BindingName(ds[j]))
    ensures BindingName(ds[j]) in Table(ds, kind) && Table(ds, kind)[BindingName(ds[j])] == ds[j].variable
    decreases |ds|
  {
    var init := ds[..|ds| - 1];
    if j < |ds| - 1 {
      assert init[j] == ds[j];
      forall k | j < k < |init| ensures !(init[k].kind == kind && BindingName(init[k]) == BindingName(init[j])) {
        assert init[k] == ds[k];
      }
      TableLastWins(init, kind, j);
    }
  }

  /** Every default callback a scan wires is the default for the name it is wired under. */
  lemma {:induction false} WiredAreDefaults(ds: seq<Declaration>, defaults: map<string, Callback>)
    ensures forall n | n in Wired(ds, defaults) :: n in defaults && Wired(ds, defaults)[n] == defaults[n]
    ensures forall j | 0 <= j < |ds| && BindingName(ds[j]) in defaults :: BindingName(ds[j]) in Wired(ds, defaults)
    decreases |ds|
  {
    if ds != [] {
      var init := ds[..|ds| - 1];
      WiredAreDefaults(init, defaults);
      forall j | 0 <= j < |init| ensures init[j] == ds[j] { }
    }
  }

  /** Scanning the same declarations again leaves the mappings, the callbacks and their order as they were. */
  lemma RescanKeepsTables(t: Tables, ds: seq<Declaration>, defaults: map<string, Callback>)
    requires OrderValid(t.callbackOrder, t.currentCallbacks)
    ensures var once := ScanAll(t, ds, defaults);
      var twice := ScanAll(once, ds, defaults);
      twice == once.(textureCount := once.textureCount + SamplerCount(ds))
  {
    var once := ScanAll(t, ds, defaults);
    var twice := ScanAll(once, ds, defaults);
    ScanAllEffect(t, ds, defaults);
    ScanAllEffect(once, ds, defaults);
    assert twice.attributeMapping == once.attributeMapping;
    assert twice.uniformMapping == once.uniformMapping;
    assert twice.currentCallbacks == once.currentCallbacks;
    WiredAreDefaults(ds, defaults);
    ScanKeepsOrder(once, ds, defaults);
  }

  /** A scan that only sets callbacks already present does not reorder them. */
  lemma {:induction false} ScanKeepsOrder(t: Tables, ds: seq<Declaration>, defaults: map<string, Callback>)
    requires OrderValid(t.callbackOrder, t.currentCallbacks)
    requires Wired(ds, defaults).Keys <= t.currentCallbacks.Keys
    ensures ScanAll(t, ds, defaults).callbackOrder == t.callbackOrder
    decreases |ds|
  {
    if ds != [] {
      var init := ds[..|ds| - 1];
      WiredGrows(ds, defaults);
      ScanKeepsOrder(t, init, defaults);
      ScanCallbacks(t, init, defaults);
    }
  }

  lemma WiredGrows(ds: seq<Declaration>, defaults: map<string, Callback>)
    requires ds != []
    ensures Wired(ds[..|ds| - 1], defaults).Keys <= Wired(ds, defaults).Keys
  {
  }
  /**
   * `_investigateShaders`: the counter reset to zero, then the vertex
   * declarations scanned, then the fragment declarations.
   */
  function Investigated(t: Tables, vertex: seq<Declaration>, fragment: seq<Declaration>, defaults: map<string, Callback>): (r: Tables)
    requires OrderValid(t.callbackOrder, t.currentCallbacks)
    ensures OrderValid(r.callbackOrder, r.currentCallbacks)
  {
    ScanAll(ScanAll(t.(textureCount := 0), vertex, defaults), fragment, defaults)
  }

  /** After the analysis the counter holds the number of sampler uniforms of both stages, whatever it held before. */
  lemma InvestigatedCount(t: Tables, vertex: seq<Declaration>, fragment: seq<Declaration>, defaults: map<string, Callback>)
    requires OrderValid(t.callbackOrder, t.currentCallbacks)
    ensures Investigated(t, vertex, fragment, defaults).textureCount == SamplerCount(vertex) + SamplerCount(fragment)
  {
    var once := ScanAll(t.(textureCount := 0), vertex, defaults);
    ScanCount(t.(textureCount := 0), vertex, defaults);
    ScanCount(once, fragment, defaults);
  }

  /** Running the analysis a second time changes nothing: the reset keeps the counter from doubling. */
  lemma InvestigatedIdempotent(t: Tables, vertex: seq<Declaration>, fragment: seq<Declaration>, defaults: map<string, Callback>)
    requires OrderValid(t.callbackOrder, t.currentCallbacks)
    ensures var once := Investigated(t, vertex, fragment, defaults);
      Investigated(once, vertex, fragment, defaults) == once
  {
    var a := t.(textureCount := 0);
    var b := ScanAll(a, vertex, defaults);
    var once := ScanAll(b, fragment, defaults);
    var c := once.(textureCount := 0);
    var d := ScanAll(c, vertex, defaults);
    var twice := ScanAll(d, fragment, defaults);
    ScanAttributes(a, vertex, defaults);
    ScanAttributes(b, fragment, defaults);
    ScanAttributes(c, vertex, defaults);
    ScanAttributes(d, fragment, defaults);
    UnionRepeated(t.attributeMapping, Table(vertex, Attribute), Table(fragment, Attribute));
    ScanUniforms(a, vertex, defaults);
    ScanUniforms(b, fragment, defaults);
    ScanUniforms(c, vertex, defaults);
    ScanUniforms(d, fragment, defaults);
    UnionRepeated(t.uniformMapping, Table(vertex, Uniform), Table(fragment, Uniform));
    ScanCallbacks(a, vertex, defaults);
    ScanCallbacks(b, fragment, defaults);
    ScanCallbacks(c, vertex, defaults);
    ScanCallbacks(d, fragment, defaults);
    UnionRepeated(t.currentCallbacks, Wired(vertex, defaults), Wired(fragment, defaults));
    ScanCount(c, vertex, defaults);
    ScanCount(d, fragment, defaults);
    InvestigatedCount(t, vertex, fragment, defaults);
    ScanKeepsOrder(c, vertex, defaults);
    ScanKeepsOrder(d, fragment, defaults);
  }

  /** Adding the same two maps again adds nothing. */
  lemma UnionRepeated<K, V>(m: map<K, V>, v: map<K, V>, f: map<K, V>)
    ensures m + v + f + v + f == m + v + f
  {
  }
}
