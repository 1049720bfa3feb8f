/**
 * The script component of an entity: a list of scripts, each of which may
 * carry a `run` function that the component calls once per frame.
 */
module Scripts {
  import opened Sequences

  /** A function value, known by its identity only; what it does is outside the model. */
  type FunctionId = nat

  /**
   * The JavaScript values a script list can hold. An object is seen through
   * its `run` and `enabled` members; a member it lacks is `Undefined`.
   */
  datatype Value =
    | Undefined
    | Null
    | Bool(b: bool)
    | Number(x: real)
    | Str(s: string)
    | List(items: seq<Value>)
    | Function(id: FunctionId)
    | Object(run: Value, enabled: Value)

  /** JavaScript truthiness: `undefined`, `null`, `false`, `0` and `""` are falsy, everything else truthy. */
  predicate Truthy(v: Value) {
    match v
    case Undefined => false
    case Null => false
    case Bool(b) => b
    case Number(x) => x != 0.0
    case Str(s) => s != []
    case _ => true
  }

  /** `script.run` and `script.enabled`: members of an object, `undefined` on any other truthy value. */
  function RunMember(v: Value): Value {
    if v.Object? then v.run else Undefined
  }

  function EnabledMember(v: Value): Value {
    if v.Object? then v.enabled else Undefined
  }

  /** `script && script.run && (script.enabled === undefined || script.enabled)`. */
  predicate ShouldRun(v: Value) {
    Truthy(v) && Truthy(RunMember(v)) && (EnabledMember(v) == Undefined || Truthy(EnabledMember(v)))
  }

  /** `this.scripts[i]`: an index past the end reads `undefined`. */
  function At(scripts: seq<Value>, i: nat): Value {
    if i < |scripts| then scripts[i] else Undefined
  }

  /** One call `script.run(entity, tpf)`. */
  datatype Invocation = Invocation(callee: FunctionId, entity: nat, tpf: real)

  /**
   * What a run did: the calls made in order, the script list afterwards, and
   * whether an exception ended it: the TypeError of a `run` member that is
   * not a function, or an exception a called function threw.
   */
  datatype Run = Run(invoked: seq<Invocation>, scripts: seq<Value>, thrown: bool)

  /**
   * The loop from index `i` up to the captured length `max`. A called script
   * may change the list; `edit(f, scripts)` is the list as function `f` leaves
   * it, and `throws(f)` says whether `f` throws, which ends the run after
   * that call.
   */
  function RunFrom(scripts: seq<Value>, i: nat, max: nat, entity: nat, tpf: real,
                   edit: (FunctionId, seq<Value>) -> seq<Value>, throws: FunctionId -> bool): (r: Run)
    requires i <= max
    ensures |r.invoked| <= max - i
    decreases max - i
  {
    if i == max then Run([], scripts, false)
    else
      var script := At(scripts, i);
      if !ShouldRun(script) then RunFrom(scripts, i + 1, max, entity, tpf, edit, throws)
      else if !script.run.Function? then Run([], scripts, true)
      else
        var call := Invocation(script.run.id, entity, tpf);
        if throws(script.run.id) then Run([call], edit(script.run.id, scripts), true)
        else
          var rest := RunFrom(edit(script.run.id, scripts), i + 1, max, entity, tpf, edit, throws);
          Run([call] + rest.invoked, rest.scripts, rest.thrown)
  }

  /** The list held after the constructor is given `scripts`. */
  function Normalized(scripts: Value): seq<Value> {
    if scripts.List? then scripts.items
    else if Truthy(scripts) then [scripts]
    else []
  }

  class ScriptComponent {
    const componentType: string
    var scripts: seq<Value>

    /**
     * `new ScriptComponent(scripts)`: an array is kept as the list, any other
     * truthy value becomes a one-script list, a falsy one an empty list.
     */
    constructor (scripts: Value)
      ensures componentType == "ScriptComponent"
      ensures scripts.List? ==> this.scripts == scripts.items
      ensures !scripts.List? && Truthy(scripts) ==> this.scripts == [scripts]
      ensures !Truthy(scripts) ==> this.scripts == []
    {
      componentType := "ScriptComponent";
      if scripts.List? {
        this.scripts := scripts.items;
      } else if Truthy(scripts) {
        this.scripts := [scripts];
      } else {
        this.scripts := [];
      }
    }

    /**
     * `run(entity, tpf)`: calls `run(entity, tpf)` on every script that should
     * run, in index order, over the length the list had when the loop began.
     */
    method RunScripts(entity: nat, tpf: real, edit: (FunctionId, seq<Value>) -> seq<Value>, throws: FunctionId -> bool)
      returns (invoked: seq<Invocation>, thrown: bool)
      modifies this`scripts
      ensures var r := RunFrom(old(scripts), 0, |old(scripts)|, entity, tpf, edit, throws);
        invoked == r.invoked && scripts == r.scripts && thrown == r.thrown
    {
      var max := |scripts|;
      ghost var whole := RunFrom(scripts, 0, max, entity, tpf, edit, throws);
      invoked := [];
      thrown := false;
      var i := 0;
      while i < max
        invariant 0 <= i <= max
        invariant var rest := RunFrom(scripts, i, max, entity, tpf, edit, throws);
          whole == Run(invoked + rest.invoked, rest.scripts, rest.thrown)
        decreases max - i
      {
        var script := At(scripts, i);
        if ShouldRun(script) {
          if !script.run.Function? {
            AppendEmpty(invoked);
            thrown := true;  // `script.run is not a function`
            return;
          }
          var call := Invocation(script.run.id, entity, tpf);
          if throws(script.run.id) {
            // the call happens, then its exception leaves the loop
            invoked := invoked + [call];
            scripts := edit(script.run.id, scripts);
            thrown := true;
            return;
          }
          AppendAssociative(invoked, call, RunFrom(edit(script.run.id, scripts), i + 1, max, entity, tpf, edit, throws).invoked);
          invoked := invoked + [call];
          scripts := edit(script.run.id, scripts);
        }
        i := i + 1;
      }
      AppendEmpty(invoked);
    }
  }

  /** Every call of a run gets the entity and the frame time the component was run with. */
  lemma {:induction false} SameArguments(scripts: seq<Value>, i: nat, max: nat, entity: nat, tpf: real,
                                         edit: (FunctionId, seq<Value>) -> seq<Value>, throws: FunctionId -> bool)
    requires i <= max
    ensures forall c | c in RunFrom(scripts, i, max, entity, tpf, edit, throws).invoked :: c.entity == entity && c.tpf == tpf
    decreases max - i
  {
    if i < max {
      var script := At(scripts, i);
      if !ShouldRun(script) {
        SameArguments(scripts, i + 1, max, entity, tpf, edit, throws);
      } else if script.run.Function? && !throws(script.run.id) {
        SameArguments(edit(script.run.id, scripts), i + 1, max, entity, tpf, edit, throws);
      }
    }
  }

  /** The functions of the scripts that should run, in list order. */
  function Selected(scripts: seq<Value>): (r: seq<FunctionId>)
    ensures |r| <= |scripts|
    ensures forall f :: f in r <==> exists k | 0 <= k < |scripts| :: ShouldRun(scripts[k]) && scripts[k].run == Function(f)
  {
    if scripts == [] then []
    else
      var rest := Selected(scripts[1..]);
      assert forall k | 0 <= k < |scripts[1..]| :: scripts[1..][k] == scripts[k + 1];
      if ShouldRun(scripts[0]) && scripts[0].run.Function? then [scripts[0].run.id] + rest else rest
  }

  /** A `run` member that is truthy but not a function. */
  predicate Broken(v: Value) {
    ShouldRun(v) && !v.run.Function?
  }

  /** A script that ends a run with an exception when its turn comes: its `run` is broken or throws. */
  predicate Fails(v: Value, throws: FunctionId -> bool) {
    Broken(v) || (ShouldRun(v) && v.run.Function? && throws(v.run.id))
  }

  /**
   * When the scripts leave the list alone and none fails, a run calls
   * exactly the selected functions, in list order, and finishes normally.
   */
  lemma {:induction false} RunCallsSelected(scripts: seq<Value>, i: nat, entity: nat, tpf: real,
                                            edit: (FunctionId, seq<Value>) -> seq<Value>, throws: FunctionId -> bool)
    requires i <= |scripts|
    requires forall f, s :: edit(f, s) == s
    requires forall k | i <= k < |scripts| :: !Fails(scripts[k], throws)
    ensures var r := RunFrom(scripts, i, |scripts|, entity, tpf, edit, throws);
      && !r.thrown
      && r.scripts == scripts
      && |r.invoked| == |Selected(scripts[i..])|
      && forall n | 0 <= n < |r.invoked| :: r.invoked[n] == Invocation(Selected(scripts[i..])[n], entity, tpf)
    decreases |scripts| - i
  {
    if i < |scripts| {
      assert scripts[i..][0] == scripts[i] && scripts[i..][1..] == scripts[i + 1..];
      RunCallsSelected(scripts, i + 1, entity, tpf, edit, throws);
    } else {
      assert scripts[i..] == [];
    }
  }

  /**
   * When the scripts leave the list alone, a run throws exactly when some
   * script that should run has a `run` member that is not a function or
   * that throws.
   */
  lemma {:induction false} RunThrowsOnFailure(scripts: seq<Value>, i: nat, entity: nat, tpf: real,
                                              edit: (FunctionId, seq<Value>) -> seq<Value>, throws: FunctionId -> bool)
    requires i <= |scripts|
    requires forall f, s :: edit(f, s) == s
    ensures RunFrom(scripts, i, |scripts|, entity, tpf, edit, throws).thrown
      <==> exists k | i <= k < |scripts| :: Fails(scripts[k], throws)
    decreases |scripts| - i
  {
    if i < |scripts| {
      RunThrowsOnFailure(scripts, i + 1, entity, tpf, edit, throws);
      if exists k | i <= k < |scripts| :: Fails(scripts[k], throws) {
        var k :| i <= k < |scripts| && Fails(scripts[k], throws);
        assert k == i || i + 1 <= k < |scripts|;
      }
    }
  }

  /**
   * The length is read once: when every call only appends to the list, a run
   * calls exactly the selected functions of the list it started with, never
   * one appended meanwhile, and the starting list stays a prefix of the final one.
   */
  lemma {:induction false} AppendedScriptsWait(start: seq<Value>, scripts: seq<Value>, i: nat, entity: nat, tpf: real,
                                               edit: (FunctionId, seq<Value>) -> seq<Value>, throws: FunctionId -> bool)
    requires i <= |start| && start <= scripts
    requires forall f, s :: s <= edit(f, s)
    requires forall k | i <= k < |start| :: !Fails(start[k], throws)
    ensures var r := RunFrom(scripts, i, |start|, entity, tpf, edit, throws);
      && !r.thrown
      && start <= r.scripts
      && |r.invoked| == |Selected(start[i..])|
      && forall n | 0 <= n < |r.invoked| :: r.invoked[n] == Invocation(Selected(start[i..])[n], entity, tpf)
    decreases |start| - i
  {
    if i < |start| {
      assert At(scripts, i) == start[i];
      assert start[i..][0] == start[i] && start[i..][1..] == start[i + 1..];
      var script := start[i];
      if ShouldRun(script) && script.run.Function? {
        var next := edit(script.run.id, scripts);
        assert start <= next by { assert scripts <= next; }
        AppendedScriptsWait(start, next, i + 1, entity, tpf, edit, throws);
      } else {
        AppendedScriptsWait(start, scripts, i + 1, entity, tpf, edit, throws);
      }
    } else {
      assert start[i..] == [];
    }
  }

  /** An index at or past the end of the list reads `undefined` and is skipped, so the rest of a run calls nothing. */
  lemma {:induction false} PastEndSkipped(scripts: seq<Value>, i: nat, max: nat, entity: nat, tpf: real,
                                          edit: (FunctionId, seq<Value>) -> seq<Value>, throws: FunctionId -> bool)
    requires |scripts| <= i <= max
    ensures RunFrom(scripts, i, max, entity, tpf, edit, throws) == Run([], scripts, false)
    decreases max - i
  {
    if i < max {
      PastEndSkipped(scripts, i + 1, max, entity, tpf, edit, throws);
    }
  }

  /**
   * A call that cuts the list down to no further than its own index ends the
   * run normally with that call: the scripts it removed are skipped.
   */
  lemma RemovedScriptsSkipped(scripts: seq<Value>, i: nat, max: nat, entity: nat, tpf: real,
                              edit: (FunctionId, seq<Value>) -> seq<Value>, throws: FunctionId -> bool)
    requires i < max
    requires ShouldRun(At(scripts, i)) && At(scripts, i).run.Function? && !throws(At(scripts, i).run.id)
    requires |edit(At(scripts, i).run.id, scripts)| <= i + 1
    ensures var f := At(scripts, i).run.id;
      RunFrom(scripts, i, max, entity, tpf, edit, throws) == Run([Invocation(f, entity, tpf)], edit(f, scripts), false)
  {
    PastEndSkipped(edit(At(scripts, i).run.id, scripts), i + 1, max, entity, tpf, edit, throws);
  }

  /** Example: a script that appends a copy of itself is called once, and the copy waits for the next run. */
  lemma AppendedScriptWaits(f: FunctionId, entity: nat, tpf: real)
    ensures var s := Object(Function(f), Undefined);
      var r := RunFrom([s], 0, 1, entity, tpf, (g: FunctionId, l: seq<Value>) => l + [s], (g: FunctionId) => false);
      r.invoked == [Invocation(f, entity, tpf)] && r.scripts == [s, s]
  {
  }

  /** Example: a first script that empties the list keeps the second from being called. */
  lemma RemovedScriptIsSkipped(f: FunctionId, g: FunctionId, entity: nat, tpf: real)
    ensures var a := Object(Function(f), Undefined);
      var b := Object(Function(g), Undefined);
      var r := RunFrom([a, b], 0, 2, entity, tpf, (h: FunctionId, l: seq<Value>) => if h == f then [] else l, (h: FunctionId) => false);
      r.invoked == [Invocation(f, entity, tpf)] && r.scripts == [] && !r.thrown
  {
  }

  /** A script that throws is called, and the run stops there: later scripts are not called. */
  lemma ThrowingScriptStopsRun(scripts: seq<Value>, i: nat, max: nat, entity: nat, tpf: real,
                               edit: (FunctionId, seq<Value>) -> seq<Value>, throws: FunctionId -> bool)
    requires i < max
    requires ShouldRun(At(scripts, i)) && At(scripts, i).run.Function? && throws(At(scripts, i).run.id)
    ensures var f := At(scripts, i).run.id;
      var r := RunFrom(scripts, i, max, entity, tpf, edit, throws);
      r.thrown && r.invoked == [Invocation(f, entity, tpf)]
  {
  }

  /** A disabled script is never called, whatever its `run` member. */
  lemma DisabledNeverRuns(run: Value, enabled: Value)
    requires enabled != Undefined && !Truthy(enabled)
    ensures !ShouldRun(Object(run, enabled))
  {
  }

  /** A single truthy non-array script ends up as the one entry of the list. */
  lemma SingleScriptList(script: Value, entity: nat, tpf: real,
                         edit: (FunctionId, seq<Value>) -> seq<Value>, throws: FunctionId -> bool)
    requires !script.List? && Truthy(script)
    ensures var r := RunFrom(Normalized(script), 0, |Normalized(script)|, entity, tpf, edit, throws);
      (ShouldRun(script) && script.run.Function? ==> r.invoked == [Invocation(script.run.id, entity, tpf)])
      && (!ShouldRun(script) ==> r.invoked == [] && !r.thrown)
  {
  }
}
