/**
 * The uniform callbacks of the shader engine
 * (TestDynamic/WebContent/goo/renderer/Shader.js:38-171): the table of default
 * callbacks every shader starts with, and what one callback does when a draw
 * runs it: the GL calls it issues and how the matrix callbacks use the
 * program's uniform record as a cache.
 */
module Callbacks {
  import opened Wrappers
  import opened Decimal
  import opened Gl

  /**
   * A callback bound to a uniform. The defaults are the engine's own closures;
   * `Custom` stands for a function the application binds, which the model
   * cannot see into.
   */
  datatype Callback =
    | ProjectionMatrix | ViewMatrix | WorldMatrix
    | Texture(unit: nat) | Light(index: nat) | CameraPosition
    | Ambient | Emissive | Diffuse | Specular | SpecularPower
    | Custom(id: nat)

  function TextureName(i: nat): string {
    "TEXTURE" + DecimalString(i)
  }

  function LightName(i: nat): string {
    "LIGHT" + DecimalString(i)
  }

  /** Every callback `setupDefaultCallbacks` creates. */
  predicate IsDefault(cb: Callback) {
    match cb
    case Texture(unit) => unit < 16
    case Light(index) => index < 4
    case Custom(_) => false
    case _ => true
  }

  /** The uniform a default callback writes: the key it looks up in the uniform call mapping. */
  function SlotName(cb: Callback): (r: Option<string>)
    ensures r.None? <==> cb.Custom?
  {
    match cb
    case ProjectionMatrix => Some("PROJECTION_MATRIX")
    case ViewMatrix => Some("VIEW_MATRIX")
    case WorldMatrix => Some("WORLD_MATRIX")
    case Texture(unit) => Some(TextureName(unit))
    case Light(index) => Some(LightName(index))
    case CameraPosition => Some("CAMERA")
    case Ambient => Some("AMBIENT")
    case Emissive => Some("EMISSIVE")
    case Diffuse => Some("DIFFUSE")
    case Specular => Some("SPECULAR")
    case SpecularPower => Some("SPECULAR_POWER")
    case Custom(_) => None
  }

  /** No two default callbacks write the same uniform, so the default table is well defined. */
  lemma SlotNameInjective(a: Callback, b: Callback)
    requires IsDefault(a) && IsDefault(b) && SlotName(a) == SlotName(b)
    ensures a == b
  {
    var n := SlotName(a).value;
    if a.Texture? && b.Texture? {
      assert DecimalString(a.unit) == n[7..] == DecimalString(b.unit);
      DecimalStringInjective(a.unit, b.unit);
    } else if a.Light? && b.Light? {
      assert LightName(a.index)[5..] == DecimalString(a.index);
      assert LightName(b.index)[5..] == DecimalString(b.index);
      DecimalStringInjective(a.index, b.index);
    } else {
      SlotNameHead(a);
      SlotNameHead(b);
    }
  }

  /** The first letter of the uniform name a callback writes. */
  lemma SlotNameHead(cb: Callback)
    requires !cb.Custom?
    ensures |SlotName(cb).value| > 0
    ensures SlotName(cb).value[0] == 'T' <==> cb.Texture?
    ensures SlotName(cb).value[0] == 'L' <==> cb.Light?
  {
  }

  /** Every entry of `table` is a default callback filed under the uniform it writes. */
  predicate DefaultsUnderOwnNames(table: map<string, Callback>) {
    forall name | name in table :: IsDefault(table[name]) && SlotName(table[name]) == Some(name)
  }

  /** `defaultCallbacks[name] = callback` for a default callback and its own name. */
  function WithDefault(table: map<string, Callback>, cb: Callback): (t: map<string, Callback>)
    requires DefaultsUnderOwnNames(table) && IsDefault(cb)
    ensures DefaultsUnderOwnNames(t)
    ensures forall name | name in table :: name in t && t[name] == table[name]
    ensures SlotName(cb).value in t && t[SlotName(cb).value] == cb
  {
    var t := table[SlotName(cb).value := cb];
    forall name | name in table ensures t[name] == table[name] {
      if name == SlotName(cb).value {
        SlotNameInjective(cb, table[name]);
      }
    }
    t
  }

  /** The loop of `setupDefaultCallbacks` that files the sixteen texture callbacks. */
  method AddTextureCallbacks(table0: map<string, Callback>) returns (table: map<string, Callback>)
    requires DefaultsUnderOwnNames(table0)
    ensures DefaultsUnderOwnNames(table)
    ensures forall name | name in table0 :: name in table && table[name] == table0[name]
    ensures forall u | 0 <= u < 16 :: TextureName(u) in table && table[TextureName(u)] == Texture(u)
  {
    table := table0;
    var i := 0;
    while i < 16
      invariant 0 <= i <= 16
      invariant DefaultsUnderOwnNames(table)
      invariant forall name | name in table0 :: name in table && table[name] == table0[name]
      invariant forall u | 0 <= u < i :: TextureName(u) in table && table[TextureName(u)] == Texture(u)
    {
      table := WithDefault(table, Texture(i));
      i := i + 1;
    }
  }

  /** The loop of `setupDefaultCallbacks` that files the four light callbacks. */
  method AddLightCallbacks(table0: map<string, Callback>) returns (table: map<string, Callback>)
    requires DefaultsUnderOwnNames(table0)
    ensures DefaultsUnderOwnNames(table)
    ensures forall name | name in table0 :: name in table && table[name] == table0[name]
    ensures forall l | 0 <= l < 4 :: LightName(l) in table && table[LightName(l)] == Light(l)
  {
    table := table0;
    var i := 0;
    while i < 4
      invariant 0 <= i <= 4
      invariant DefaultsUnderOwnNames(table)
      invariant forall name | name in table0 :: name in table && table[name] == table0[name]
      invariant forall l | 0 <= l < i :: LightName(l) in table && table[LightName(l)] == Light(l)
    {
      table := WithDefault(table, Light(i));
      i := i + 1;
    }
  }

  /**
   * `setupDefaultCallbacks`: the table maps each default callback's uniform
   * name to that callback, and holds nothing else.
   */
  method SetupDefaultCallbacks() returns (table: map<string, Callback>)
    ensures DefaultsUnderOwnNames(table)
    ensures forall cb | IsDefault(cb) :: SlotName(cb).value in table && table[SlotName(cb).value] == cb
  {
    table := map[];
    table := WithDefault(table, ProjectionMatrix);
    table := WithDefault(table, ViewMatrix);
    table := WithDefault(table, WorldMatrix);
    table := AddTextureCallbacks(table);
    table := AddLightCallbacks(table);
    table := WithDefault(table, CameraPosition);
    table := WithDefault(table, Ambient);
    table := WithDefault(table, Emissive);
    table := WithDefault(table, Diffuse);
    table := WithDefault(table, Specular);
    table := WithDefault(table, SpecularPower);
    forall cb | IsDefault(cb) ensures SlotName(cb).value in table && table[SlotName(cb).value] == cb {
      match cb
      case Texture(u) =>
      case Light(l) =>
      case _ =>
    }
  }

  datatype Vec3 = Vec3(x: real, y: real, z: real)

  datatype Color = Color(r: real, g: real, b: real, a: real)

  /** `GooRunner.renderer.camera`, passed in rather than read from a global. */
  datatype Camera = Camera(projectionMatrix: Mat4, matrixWorldInverse: Mat4, position: Vec3)

  datatype MaterialState = MaterialState(ambient: Color, emissive: Color, diffuse: Color, specular: Color, shininess: real)

  /** One entry of a mesh's attribute map; `normalized` is `None` where the mesh leaves it undefined. */
  datatype MeshAttribute = MeshAttribute(count: int, componentType: int, normalized: Option<bool>, offset: int)

  /**
   * What a draw hands the shader: the entity's world matrix, the material's
   * state (`None` for `undefined`) and the mesh's attribute map in key order.
   */
  datatype ShaderInfo = ShaderInfo(
    worldMatrix: Mat4,
    materialState: Option<MaterialState>,
    attributeMap: seq<(string, MeshAttribute)>)

  const DefaultAmbient: Color := Color(0.1, 0.1, 0.1, 1.0)
  const DefaultEmissive: Color := Color(0.0, 0.0, 0.0, 0.0)
  const DefaultDiffuse: Color := Color(1.0, 1.0, 1.0, 1.0)
  const DefaultSpecular: Color := Color(0.8, 0.8, 0.8, 1.0)
  const DefaultShininess: real := 8.0
  /** The fixed position every light callback writes. */
  const LightPosition: Vec3 := Vec3(20.0, 20.0, 50.0)

  /** The matrix a matrix callback pushes, `None` for the other callbacks. */
  function MatrixSource(cb: Callback, camera: Camera, info: ShaderInfo): Option<Mat4> {
    match cb
    case ProjectionMatrix => Some(camera.projectionMatrix)
    case ViewMatrix => Some(camera.matrixWorldInverse)
    case WorldMatrix => Some(info.worldMatrix)
    case _ => None
  }

  function Uniform4(location: Location, c: Color): GlCall {
    Uniform4f(location, c.r, c.g, c.b, c.a)
  }

  /** The one write a callback without a cache issues on its uniform. */
  function UniformWrite(cb: Callback, location: Location, camera: Camera, info: ShaderInfo): GlCall
    requires !cb.Custom? && MatrixSource(cb, camera, info).None?
  {
    var m := info.materialState;
    match cb
    case Texture(unit) => Uniform1i(location, unit)
    case Light(_) => Uniform3f(location, LightPosition.x, LightPosition.y, LightPosition.z)
    case CameraPosition => Uniform3f(location, camera.position.x, camera.position.y, camera.position.z)
    case Ambient => Uniform4(location, if m.Some? then m.value.ambient else DefaultAmbient)
    case Emissive => Uniform4(location, if m.Some? then m.value.emissive else DefaultEmissive)
    case Diffuse => Uniform4(location, if m.Some? then m.value.diffuse else DefaultDiffuse)
    case Specular => Uniform4(location, if m.Some? then m.value.specular else DefaultSpecular)
    case SpecularPower => Uniform1f(location, if m.Some? then m.value.shininess else DefaultShininess)
  }

  /**
   * A matrix callback against the program's uniform record: a cached copy
   * within tolerance means no write; otherwise the copy is replaced (or first
   * stored) and the matrix written once.
   */
  function CachedPush(cache: map<string, Mat4>, slot: string, location: Location, matrix: Mat4): (r: (map<string, Mat4>, seq<GlCall>))
    ensures r.0.Keys == cache.Keys + {slot}
    ensures forall k | k in cache && k != slot :: r.0[k] == cache[k]
    ensures WithinTolerance(r.0[slot], matrix)
    ensures r.1 == [] <==> slot in cache && WithinTolerance(cache[slot], matrix)
    ensures r.1 == [] ==> r.0 == cache
    ensures r.1 != [] ==> r.0[slot] == matrix && r.1 == [UniformMatrix4fv(location, false, matrix)]
  {
    if slot in cache && WithinTolerance(cache[slot], matrix) then (cache, [])
    else
      WithinToleranceReflexive(matrix);
      (cache[slot := matrix], [UniformMatrix4fv(location, false, matrix)])
  }

  /** A second push of the same matrix finds it cached and writes nothing. */
  lemma CachedPushSettles(cache: map<string, Mat4>, slot: string, location: Location, matrix: Mat4)
    ensures var r := CachedPush(cache, slot, location, matrix);
      CachedPush(r.0, slot, location, matrix) == (r.0, [])
  {
  }

  /** How a callback ended: normally, or with the TypeError of a uniform the shader has no call object for. */
  datatype Outcome = Completed | MissingSlot(name: string)

  /** One callback run: its outcome, the program's uniform record after it, and the calls it issued. */
  datatype Effect = Effect(outcome: Outcome, cache: map<string, Mat4>, calls: seq<GlCall>)

  /** Running callback `cb` with the uniform call mapping `slots` and the record's values `cache`. */
  function Invoke(cb: Callback, slots: map<string, ShaderCall>, cache: map<string, Mat4>, camera: Camera, info: ShaderInfo): (e: Effect)
    ensures e.outcome.MissingSlot? ==> e.cache == cache && e.calls == []
    ensures MatrixSource(cb, camera, info).None? ==> e.cache == cache
    ensures |e.calls| <= 1
  {
    if cb.Custom? then Effect(Completed, cache, [CustomCallback(cb.id)])
    else
      var name := SlotName(cb).value;
      if name !in slots then Effect(MissingSlot(name), cache, [])
      else
        var location := slots[name].location;
        var matrix := MatrixSource(cb, camera, info);
        if matrix.Some? then
          var pushed := CachedPush(cache, name, location, matrix.value);
          Effect(Completed, pushed.0, pushed.1)
        else Effect(Completed, cache, [UniformWrite(cb, location, camera, info)])
  }

  /** A texture callback writes its unit number on every run, whatever the cache holds. */
  lemma TextureAlwaysWrites(unit: nat, slots: map<string, ShaderCall>, cache: map<string, Mat4>, camera: Camera, info: ShaderInfo)
    requires unit < 16 && TextureName(unit) in slots
    ensures Invoke(Texture(unit), slots, cache, camera, info)
         == Effect(Completed, cache, [Uniform1i(slots[TextureName(unit)].location, unit)])
  {
  }

  /** Without a material state the material callbacks write the fixed defaults. */
  lemma MaterialDefaults(slots: map<string, ShaderCall>, cache: map<string, Mat4>, camera: Camera, info: ShaderInfo)
    requires info.materialState.None?
    requires forall n | n in ["AMBIENT", "EMISSIVE", "DIFFUSE", "SPECULAR", "SPECULAR_POWER"] :: n in slots
    ensures Invoke(Ambient, slots, cache, camera, info).calls == [Uniform4f(slots["AMBIENT"].location, 0.1, 0.1, 0.1, 1.0)]
    ensures Invoke(Emissive, slots, cache, camera, info).calls == [Uniform4f(slots["EMISSIVE"].location, 0.0, 0.0, 0.0, 0.0)]
    ensures Invoke(Diffuse, slots, cache, camera, info).calls == [Uniform4f(slots["DIFFUSE"].location, 1.0, 1.0, 1.0, 1.0)]
    ensures Invoke(Specular, slots, cache, camera, info).calls == [Uniform4f(slots["SPECULAR"].location, 0.8, 0.8, 0.8, 1.0)]
    ensures Invoke(SpecularPower, slots, cache, camera, info).calls == [Uniform1f(slots["SPECULAR_POWER"].location, 8.0)]
  {
  }

  /**
   * The callbacks of `names`, run in order, each against the record the
   * previous one left; a missing uniform ends the run (the exception leaves
   * `apply`).
   */
  function RunAll(names: seq<string>, callbacks: map<string, Callback>, slots: map<string, ShaderCall>,
                  cache: map<string, Mat4>, camera: Camera, info: ShaderInfo): (e: Effect)
    requires forall n | n in names :: n in callbacks
    ensures |e.calls| <= |names|
    decreases |names|
  {
    if names == [] then Effect(Completed, cache, [])
    else
      var first := Invoke(callbacks[names[0]], slots, cache, camera, info);
      if first.outcome.MissingSlot? then first
      else
        var rest := RunAll(names[1..], callbacks, slots, first.cache, camera, info);
        assert forall n | n in names[1..] :: n in names;
        Effect(rest.outcome, rest.cache, first.calls + rest.calls)
  }

  /** A callback throws exactly when it is not a custom one and the shader has no call object for its uniform. */
  lemma InvokeOutcome(cb: Callback, slots: map<string, ShaderCall>, cache: map<string, Mat4>, camera: Camera, info: ShaderInfo)
    ensures var e := Invoke(cb, slots, cache, camera, info);
      && (e.outcome.MissingSlot? <==> !cb.Custom? && SlotName(cb).value !in slots)
      && (e.outcome.MissingSlot? ==> e.outcome.name == SlotName(cb).value)
  {
  }

  /**
   * A run throws only for a uniform that one of its callbacks writes and
   * the shader lacks, and a run that completes found every uniform its
   * callbacks write.
   */
  lemma {:induction false} RunAllOutcome(names: seq<string>, callbacks: map<string, Callback>, slots: map<string, ShaderCall>,
                                         cache: map<string, Mat4>, camera: Camera, info: ShaderInfo)
    requires forall n | n in names :: n in callbacks
    ensures var e := RunAll(names, callbacks, slots, cache, camera, info);
      && (e.outcome.MissingSlot? ==>
            e.outcome.name !in slots && exists n | n in names :: SlotName(callbacks[n]) == Some(e.outcome.name))
      && (e.outcome.Completed? ==> forall n | n in names :: callbacks[n].Custom? || SlotName(callbacks[n]).value in slots)
    decreases |names|
  {
    if names != [] {
      var first := Invoke(callbacks[names[0]], slots, cache, camera, info);
      InvokeOutcome(callbacks[names[0]], slots, cache, camera, info);
      if first.outcome.Completed? {
        assert forall n | n in names[1..] :: n in names;
        RunAllOutcome(names[1..], callbacks, slots, first.cache, camera, info);
        forall n | n in names ensures n == names[0] || n in names[1..] { }
      }
    }
  }

  /** The run from position `i` is the callback at `i` followed, unless it throws, by the run from `i + 1`. */
  lemma RunAllStep(names: seq<string>, i: nat, callbacks: map<string, Callback>, slots: map<string, ShaderCall>,
                   cache: map<string, Mat4>, camera: Camera, info: ShaderInfo)
    requires i < |names| && forall n | n in names :: n in callbacks
    ensures forall n | n in names[i..] :: n in callbacks
    ensures forall n | n in names[i + 1..] :: n in callbacks
    ensures var first := Invoke(callbacks[names[i]], slots, cache, camera, info);
      var here := RunAll(names[i..], callbacks, slots, cache, camera, info);
      && (first.outcome.MissingSlot? ==> here == first)
      && (first.outcome.Completed? ==>
            var next := RunAll(names[i + 1..], callbacks, slots, first.cache, camera, info);
            here == Effect(next.outcome, next.cache, first.calls + next.calls))
  {
  }

  /** Past the last name the run does nothing. */
  lemma RunAllEnd(names: seq<string>, callbacks: map<string, Callback>, slots: map<string, ShaderCall>,
                  cache: map<string, Mat4>, camera: Camera, info: ShaderInfo)
    requires forall n | n in names :: n in callbacks
    ensures forall n | n in names[|names|..] :: n in callbacks
    ensures RunAll(names[|names|..], callbacks, slots, cache, camera, info) == Effect(Completed, cache, [])
  {
  }

  /** Every matrix callback among `names` finds a copy of its matrix in the cache. */
  predicate Settled(names: seq<string>, callbacks: map<string, Callback>, cache: map<string, Mat4>, camera: Camera, info: ShaderInfo)
    requires forall n | n in names :: n in callbacks
  {
    forall n | n in names && MatrixSource(callbacks[n], camera, info).Some? ::
      SlotName(callbacks[n]).value in cache
      && WithinTolerance(cache[SlotName(callbacks[n]).value], MatrixSource(callbacks[n], camera, info).value)
  }

  /** One more callback keeps a settled cache settled, and settles its own uniform. */
  lemma InvokeKeepsSettled(names: seq<string>, callbacks: map<string, Callback>, name: string, slots: map<string, ShaderCall>,
                           cache: map<string, Mat4>, camera: Camera, info: ShaderInfo)
    requires forall n | n in names :: n in callbacks
    requires name in callbacks
    requires Settled(names, callbacks, cache, camera, info)
    ensures var e := Invoke(callbacks[name], slots, cache, camera, info);
      e.outcome.Completed? ==> Settled(names + [name], callbacks, e.cache, camera, info)
  {
  }

  /** A run that completes leaves every matrix it pushed cached. */
  lemma {:induction false} RunAllSettles(done: seq<string>, names: seq<string>, callbacks: map<string, Callback>,
                                         slots: map<string, ShaderCall>, cache: map<string, Mat4>, camera: Camera, info: ShaderInfo)
    requires forall n | n in done :: n in callbacks
    requires forall n | n in names :: n in callbacks
    requires Settled(done, callbacks, cache, camera, info)
    ensures var e := RunAll(names, callbacks, slots, cache, camera, info);
      e.outcome.Completed? ==> Settled(done + names, callbacks, e.cache, camera, info)
    decreases |names|
  {
    if names != [] {
      var first := Invoke(callbacks[names[0]], slots, cache, camera, info);
      InvokeKeepsSettled(done, callbacks, names[0], slots, cache, camera, info);
      if first.outcome.Completed? {
        assert forall n | n in names[1..] :: n in names;
        RunAllSettles(done + [names[0]], names[1..], callbacks, slots, first.cache, camera, info);
        assert done + [names[0]] + names[1..] == done + names;
      }
    }
  }

  /** The callbacks only write uniforms: a run never makes another program current. */
  lemma {:induction false} RunAllSwitchesNothing(names: seq<string>, callbacks: map<string, Callback>,
                                                 slots: map<string, ShaderCall>, cache: map<string, Mat4>, camera: Camera, info: ShaderInfo)
    requires forall n | n in names :: n in callbacks
    ensures NoSwitch(RunAll(names, callbacks, slots, cache, camera, info).calls)
    decreases |names|
  {
    if names != [] {
      var first := Invoke(callbacks[names[0]], slots, cache, camera, info);
      assert NoSwitch(first.calls);
      if first.outcome.Completed? {
        assert forall n | n in names[1..] :: n in names;
        RunAllSwitchesNothing(names[1..], callbacks, slots, first.cache, camera, info);
      }
    }
  }

  /** Calls that write a matrix uniform. */
  predicate NoMatrixWrites(calls: seq<GlCall>) {
    forall j | 0 <= j < |calls| :: !calls[j].UniformMatrix4fv?
  }

  /** From a settled cache a run writes no matrix and leaves the cache as it was. */
  lemma {:induction false} SettledRunWritesNoMatrix(names: seq<string>, callbacks: map<string, Callback>,
                                                    slots: map<string, ShaderCall>, cache: map<string, Mat4>, camera: Camera, info: ShaderInfo)
    requires forall n | n in names :: n in callbacks
    requires Settled(names, callbacks, cache, camera, info)
    ensures var e := RunAll(names, callbacks, slots, cache, camera, info);
      e.cache == cache && NoMatrixWrites(e.calls)
    decreases |names|
  {
    if names != [] {
      var first := Invoke(callbacks[names[0]], slots, cache, camera, info);
      assert first.cache == cache && NoMatrixWrites(first.calls);
      if first.outcome.Completed? {
        assert forall n | n in names[1..] :: n in names;
        SettledRunWritesNoMatrix(names[1..], callbacks, slots, cache, camera, info);
        var rest := RunAll(names[1..], callbacks, slots, cache, camera, info);
        assert NoMatrixWrites(first.calls + rest.calls);
      }
    }
  }

  /**
   * The point of the cache: when a draw's callbacks complete, drawing again
   * with the same camera and world matrix issues no matrix write.
   */
  lemma RedrawWritesNoMatrix(names: seq<string>, callbacks: map<string, Callback>,
                             slots: map<string, ShaderCall>, cache: map<string, Mat4>, camera: Camera, info: ShaderInfo)
    requires forall n | n in names :: n in callbacks
    requires RunAll(names, callbacks, slots, cache, camera, info).outcome.Completed?
    ensures var first := RunAll(names, callbacks, slots, cache, camera, info);
      var second := RunAll(names, callbacks, slots, first.cache, camera, info);
      second.cache == first.cache && NoMatrixWrites(second.calls)
  {
    RunAllSettles([], names, callbacks, slots, cache, camera, info);
    assert [] + names == names;
    SettledRunWritesNoMatrix(names, callbacks, slots, RunAll(names, callbacks, slots, cache, camera, info).cache, camera, info);
  }
}
