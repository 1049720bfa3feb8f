# Goo engine shader binding, string naming and script running, in Dafny

This project models three parts of the Goo WebGL engine and proves properties of them:

- **`Shader`** (`TestDynamic/WebContent/goo/renderer/Shader.js`). A shader holds a vertex and a fragment source.
  - On first use it scans both sources for `attribute`/`uniform` declarations.
  - It files each declaration under its binding name and wires the default callback registered for that name.
  - It then compiles a program and resolves attribute indices and uniform locations.
  - Every `apply` makes the program current, binds the mesh attributes and runs the current callbacks.
  - The matrix callbacks keep a per-program cache, so an unchanged matrix is not written twice.
- **`StringUtil`** (`src/goo/util/StringUtil.js`). It covers `endsWith`, `startsWith`, `capitalize`, and the naming helpers `getIndexedName` and `getUniqueName`.
- **`ScriptComponent`** (`src/goo/entities/components/ScriptComponent.js`). The constructor normalises its argument into a script list. `run` calls each enabled script's `run(entity, tpf)`.

The WebGL context is a class with a log of the calls issued on it. `createProgram` hands out fresh program ids. `getAttribLocation` and `getUniformLocation` are functions fixed when the context is made. The renderer's shared `shaderRecord` is a class holding the program in use and one uniform record per program. Each uniform record is a class whose cached matrices the callbacks update in place.

Files:

| file | module | contents |
|---|---|---|
| `wrappers.dfy` | `Wrappers` | `Option` (JavaScript `undefined` beside a value) |
| `decimal.dfy` | `Decimal` | `String(n)` and `parseInt` on digit strings |
| `string_util.dfy` | `StringUtil` | `indexOf`, the string helpers, and the naming loop (as written and corrected) |
| `glsl_scan.dfy` | `GlslScan` | the declaration pattern at `Shader.js:36` as a recogniser, and the `exec` loop |
| `gl.dfy` | `Gl` | matrices and `compareMatrices`, the context and its call log, shader and uniform records, renderer |
| `callbacks.dfy` | `Callbacks` | the default callback table, what each callback does, and runs of callbacks |
| `bindings.dfy` | `Bindings` | the binding tables the scan fills, as functions of the declarations found |
| `shader.dfy` | `Shaders` | class `Shader`: constructor, `bindCallback`, the scans, `compile`, `apply` |
| `sequences.dfy` | `Sequences` | small facts about sequence concatenation that the other modules share |
| `script_component.dfy` | `Scripts` | JavaScript values, truthiness, class `ScriptComponent` and its `run` loop |

## Model

| member | source | states |
|---|---|---|
| Decimal.ParseDecimalString | src/goo/util/StringUtil.js:27-36 | `parseInt` of the decimal spelling of an index gives back that index |
| Decimal.DecimalStringInjective | TestDynamic/WebContent/goo/renderer/Shader.js:96-112 | distinct numbers get distinct spellings, so `'TEXTURE' + i` and `'LIGHT' + i` name distinct uniforms |
| StringUtil.IndexOf | src/goo/util/StringUtil.js:4-10 | `indexOf` returns -1 exactly when the search string occurs nowhere from the clamped start; otherwise it returns the first occurrence from there |
| StringUtil.EndsWith | src/goo/util/StringUtil.js:4-6 | true exactly when the suffix is no longer than the string and equals its tail; the empty suffix always matches |
| StringUtil.StartsWith | src/goo/util/StringUtil.js:8-10 | true exactly when the prefix is no longer than the string and equals its head |
| StringUtil.Capitalize | src/goo/util/StringUtil.js:12-14 | same length; the first character is upper-cased and the rest is unchanged; the empty string stays empty |
| StringUtil.SeparatorOrDefault | src/goo/util/StringUtil.js:17 | a missing or empty separator becomes `'_'`; any other separator is kept |
| StringUtil.Classify | src/goo/util/StringUtil.js:19-33 | a taken name fails to match exactly when `base` occurs nowhere in it |
| StringUtil.ClassifyIndexedName | src/goo/util/StringUtil.js:19-28 | the name `base + sep + n` is read as carrying suffix number `n` |
| StringUtil.Step | src/goo/util/StringUtil.js:25-33 | corrected step: the index never falls; a suffix number `n` lifts it above `n`; any match lifts it to at least 1 |
| StringUtil.NoMatchKeepsIndex | src/goo/util/StringUtil.js:20-36 | when no taken name contains `base`, both the as-written and the corrected loop keep the starting index, so the result ends in 0 |
| StringUtil.AsWrittenLastBareGivesOne | src/goo/util/StringUtil.js:30-32 | as written, a bare match with no later match leaves the index at exactly 1, whatever came before |
| StringUtil.AsWrittenLastNumberedExceeds | src/goo/util/StringUtil.js:26-29 | as written, a final numbered match leaves the index above its number |
| StringUtil.AsWrittenReturnsTakenName | src/goo/util/StringUtil.js:16-44 | as written, the taken list `["foo_1", "foo"]` makes `getUniqueName("foo")` return `"foo_1"`, a name already taken |
| StringUtil.FinalIndexBounds | src/goo/util/StringUtil.js:22-34 | the corrected loop's index never falls; it ends above every suffix number met, and at least 1 once anything matched |
| StringUtil.IndexedNameIsFree | src/goo/util/StringUtil.js:16-37 | the corrected `base + sep + index` is never among the taken names |
| StringUtil.GetIndexedName | src/goo/util/StringUtil.js:16-37 | corrected behaviour (see Findings): the loop returns `base + separator + index` with the index of the corrected fold, and the name is not taken |
| StringUtil.GetUniqueName | src/goo/util/StringUtil.js:39-44 | corrected behaviour (see Findings): a free desired name is returned unchanged; a taken one gets an indexed variant; the result is never taken |
| GlslScan.SpaceEnd | TestDynamic/WebContent/goo/renderer/Shader.js:36 | greedy `\s*`: everything skipped is white space and the next character is not |
| GlslScan.WordEnd | TestDynamic/WebContent/goo/renderer/Shader.js:36 | greedy `\w+`: everything taken is a word character and the next character is not |
| GlslScan.FormatAt | TestDynamic/WebContent/goo/renderer/Shader.js:36 | the type token found is one of the eleven alternatives spelled at that point; none means no alternative is spelled there |
| GlslScan.KeywordAt | TestDynamic/WebContent/goo/renderer/Shader.js:36 | the alternation `attribute\|uniform`: a kind is found only when its keyword is spelled at that point, and none only when neither keyword is |
| GlslScan.MatchAt | TestDynamic/WebContent/goo/renderer/Shader.js:36 | a match starting at `i` spans a non-empty range inside the source |
| GlslScan.MatchAtSpelled | TestDynamic/WebContent/goo/renderer/Shader.js:36 | the pattern matches at `i` and captures `d` exactly when `d` is written out at `i`: its keyword at a word boundary, white space, its type, white space, its variable followed directly by `;`, then the chain of `// !Name` comments whose last name it captures and whose end ends the match |
| GlslScan.MatchAtWitness | TestDynamic/WebContent/goo/renderer/Shader.js:36 | what the pattern matches is written out in the source at the positions the greedy quantifiers stop at |
| GlslScan.SpelledMatches | TestDynamic/WebContent/goo/renderer/Shader.js:36 | a declaration written out in the source is matched where it starts, with exactly its kind, type, variable, annotation and end |
| GlslScan.MatchAtWellFormed | TestDynamic/WebContent/goo/renderer/Shader.js:36 | a match starts at a word boundary with its keyword spelled there, names a type from the list, and has a word as its variable |
| GlslScan.AnnotationIsLast | TestDynamic/WebContent/goo/renderer/Shader.js:36 | of a chain of `// !Name` comments, the repeated group keeps the last name |
| GlslScan.FindMatch | TestDynamic/WebContent/goo/renderer/Shader.js:228-229 | `exec` from `lastIndex` returns a match starting at or after it and ending inside the source |
| GlslScan.FindMatchIsMatch | TestDynamic/WebContent/goo/renderer/Shader.js:228-254 | the match `exec` returns is the match of the pattern at the position where it starts |
| GlslScan.FindMatchIsLeftmost | TestDynamic/WebContent/goo/renderer/Shader.js:228-254 | whenever the pattern matches at some position from `lastIndex` on, `exec` finds a match, and none that starts later than that position |
| GlslScan.MatchesFrom | TestDynamic/WebContent/goo/renderer/Shader.js:228-255 | the matches of the loop are well formed, inside the source and in order, each starting where the previous one ended or later |
| GlslScan.Declarations | TestDynamic/WebContent/goo/renderer/Shader.js:227-256 | every declaration the scan of a source yields is well formed and lies inside the source |
| GlslScan.DeclarationsExact | TestDynamic/WebContent/goo/renderer/Shader.js:227-256 | every declaration the scan yields is written out in the source; every declaration written out is yielded unless it starts inside the span of an earlier match |
| GlslScan.AnnotatedUniformDeclares | TestDynamic/WebContent/goo/renderer/Shader.js:227-256 | for every variable and binding name made of word characters, `uniform mat4 <variable>; // !<name>` yields exactly one declaration: the uniform `<variable>` of type `mat4`, bound under `<name>`, spanning the whole source |
| GlslScan.WorldMatrixDeclared | TestDynamic/WebContent/goo/renderer/Shader.js:227-256 | `uniform mat4 worldMatrix; // !WORLD_MATRIX` yields exactly the uniform `worldMatrix` of type `mat4` under the binding name `WORLD_MATRIX` |
| Gl.CompareMatrices | TestDynamic/WebContent/goo/renderer/Shader.js:173-182 | the element loop answers true exactly when every element pair differs by at most 0.00000001 |
| Gl.WithinToleranceReflexive | TestDynamic/WebContent/goo/renderer/Shader.js:173-182 | a matrix compares equal to itself |
| Gl.WithinToleranceSymmetric | TestDynamic/WebContent/goo/renderer/Shader.js:173-182 | the comparison does not depend on argument order |
| Gl.WithinToleranceNotTransitive | TestDynamic/WebContent/goo/renderer/Shader.js:173-182 | the comparison is not transitive: two steps of the tolerance compare unequal end to end |
| Gl.Context.CreateProgram | TestDynamic/WebContent/goo/renderer/Shader.js:269 | a program id never handed out before, logged as created |
| Gl.Context.BuildProgram | TestDynamic/WebContent/goo/renderer/Shader.js:262-279 | both stages compiled, a fresh program created, both attached and linked, in that order in the log |
| Gl.Renderer.BindVertexAttribute | TestDynamic/WebContent/goo/renderer/Shader.js:205-206 | appends exactly one attribute binding to the log |
| Gl.ProgramSwitchesAppend | TestDynamic/WebContent/goo/renderer/Shader.js:193-197 | the programs made current by two call sequences issued one after the other are those of the first, then those of the second |
| Gl.NoSwitchSwitchesNothing | TestDynamic/WebContent/goo/renderer/Shader.js:193-197 | a call sequence without `useProgram` makes no program current |
| Callbacks.SlotName | TestDynamic/WebContent/goo/renderer/Shader.js:39-169 | every default callback writes a named uniform; custom callbacks have none |
| Callbacks.SlotNameInjective | TestDynamic/WebContent/goo/renderer/Shader.js:38-169 | no two default callbacks write the same uniform |
| Callbacks.WithDefault | TestDynamic/WebContent/goo/renderer/Shader.js:39 | one `defaultCallbacks[name] = fn` adds the callback under its own name and keeps the other entries |
| Callbacks.AddTextureCallbacks | TestDynamic/WebContent/goo/renderer/Shader.js:96-102 | after the loop, `TEXTURE0` to `TEXTURE15` hold texture callbacks for units 0 to 15, and earlier entries are kept |
| Callbacks.AddLightCallbacks | TestDynamic/WebContent/goo/renderer/Shader.js:105-112 | after the loop, `LIGHT0` to `LIGHT3` hold the four light callbacks, and earlier entries are kept |
| Callbacks.SetupDefaultCallbacks | TestDynamic/WebContent/goo/renderer/Shader.js:38-171 | the table holds every default callback under the uniform it writes, and nothing else |
| Callbacks.CachedPush | TestDynamic/WebContent/goo/renderer/Shader.js:44-56 | nothing is written exactly when a cached copy within tolerance exists; otherwise the copy is replaced and one matrix write issued; other entries are untouched |
| Callbacks.CachedPushSettles | TestDynamic/WebContent/goo/renderer/Shader.js:44-56 | pushing the same matrix a second time writes nothing and leaves the cache alone |
| Callbacks.Invoke | TestDynamic/WebContent/goo/renderer/Shader.js:39-169 | a callback issues at most one call; only matrix callbacks change the cache; a missing uniform changes nothing |
| Callbacks.InvokeOutcome | TestDynamic/WebContent/goo/renderer/Shader.js:39-169 | a callback throws exactly when it is not custom and the uniform call mapping lacks its uniform, and it names that uniform |
| Callbacks.TextureAlwaysWrites | TestDynamic/WebContent/goo/renderer/Shader.js:96-102 | a texture callback writes its unit number on every run, whatever the cache holds |
| Callbacks.MaterialDefaults | TestDynamic/WebContent/goo/renderer/Shader.js:119-169 | without a material state, the five material callbacks write the fixed default colours and shininess 8 |
| Callbacks.RunAll | TestDynamic/WebContent/goo/renderer/Shader.js:210-212 | a run of `n` callbacks issues at most `n` calls |
| Callbacks.RunAllOutcome | TestDynamic/WebContent/goo/renderer/Shader.js:210-212 | a run throws only for a uniform that one of its callbacks writes and the shader lacks; a completed run found every uniform it writes |
| Callbacks.InvokeKeepsSettled | TestDynamic/WebContent/goo/renderer/Shader.js:44-56 | a completed callback keeps every cached matrix within tolerance and settles its own |
| Callbacks.RunAllSettles | TestDynamic/WebContent/goo/renderer/Shader.js:210-212 | a completed run leaves every matrix its callbacks push cached |
| Callbacks.SettledRunWritesNoMatrix | TestDynamic/WebContent/goo/renderer/Shader.js:210-212 | from a settled cache a run writes no matrix and leaves the cache as it was |
| Callbacks.RedrawWritesNoMatrix | TestDynamic/WebContent/goo/renderer/Shader.js:184-212 | after a completed draw, drawing again with the same camera and world matrix writes no matrix |
| Callbacks.RunAllSwitchesNothing | TestDynamic/WebContent/goo/renderer/Shader.js:210-212 | a run of the callbacks never makes a program current |
| Bindings.SamplerFormats | TestDynamic/WebContent/goo/renderer/Shader.js:244-246 | `format.indexOf("sampler") === 0` holds exactly for `sampler2D`, `sampler3D` and `samplerCube` |
| Bindings.SetCallback | TestDynamic/WebContent/goo/renderer/Shader.js:217-219 | the entry is set and the others kept; a new key goes to the end of the enumeration order; the order stays a duplicate-free list of the keys |
| Bindings.Enroll | TestDynamic/WebContent/goo/renderer/Shader.js:232-252 | filing one declaration keeps the enumeration order valid |
| Bindings.EnrollEffect | TestDynamic/WebContent/goo/renderer/Shader.js:237-252 | one declaration is filed under its binding name in its kind's mapping, counts once if it is a sampler, and wires the default for its name if there is one |
| Bindings.ScanAttributes | TestDynamic/WebContent/goo/renderer/Shader.js:241-242 | after a scan, the attribute mapping is the old one overlaid with the attributes found |
| Bindings.ScanUniforms | TestDynamic/WebContent/goo/renderer/Shader.js:243-248 | after a scan, the uniform mapping is the old one overlaid with the uniforms found |
| Bindings.ScanCount | TestDynamic/WebContent/goo/renderer/Shader.js:244-246 | a scan adds the number of sampler uniforms found to the counter |
| Bindings.ScanCallbacks | TestDynamic/WebContent/goo/renderer/Shader.js:250-252 | after a scan, the current callbacks are the old ones overlaid with the defaults of the scanned names |
| Bindings.ScanAllEffect | TestDynamic/WebContent/goo/renderer/Shader.js:231-255 | all four effects of a scan at once |
| Bindings.TableKeys | TestDynamic/WebContent/goo/renderer/Shader.js:237-248 | a name is in a mapping exactly when some declaration of that kind is filed under it |
| Bindings.TableLastWins | TestDynamic/WebContent/goo/renderer/Shader.js:242-247 | the last declaration filed under a name decides its variable |
| Bindings.WiredAreDefaults | TestDynamic/WebContent/goo/renderer/Shader.js:250-252 | every wired callback is the default for its name, and every scanned name with a default is wired |
| Bindings.ScanKeepsOrder | TestDynamic/WebContent/goo/renderer/Shader.js:250-252 | a scan that only re-sets existing callbacks keeps their enumeration order |
| Bindings.RescanKeepsTables | TestDynamic/WebContent/goo/renderer/Shader.js:227-256 | scanning the same declarations twice changes only the counter, which grows by the sampler count |
| Bindings.Investigated | TestDynamic/WebContent/goo/renderer/Shader.js:221-225 | the analysis keeps the enumeration order valid |
| Bindings.InvestigatedCount | TestDynamic/WebContent/goo/renderer/Shader.js:221-225 | after the analysis, the counter is the number of samplers in both stages, whatever it held before |
| Bindings.InvestigatedIdempotent | TestDynamic/WebContent/goo/renderer/Shader.js:221-225 | running the analysis again changes nothing |
| Shaders.UseCalls | TestDynamic/WebContent/goo/renderer/Shader.js:193-197 | `useProgram` is issued exactly when the record names another program or none |
| Shaders.NormalizedAsWrittenIgnoresFlag | TestDynamic/WebContent/goo/renderer/Shader.js:205-206 | as written, an attribute with `normalized: false` is still bound as normalised |
| Shaders.NormalizedFlag | TestDynamic/WebContent/goo/renderer/Shader.js:205-206 | corrected flag: false exactly when the attribute says `false`; otherwise the attribute's own value, and true when it has none |
| Shaders.BindCallsExact | TestDynamic/WebContent/goo/renderer/Shader.js:199-208 | a binding is issued exactly for a mesh attribute whose key has a resolved index, and at most one per attribute |
| Shaders.BindCallsSwitchNothing | TestDynamic/WebContent/goo/renderer/Shader.js:199-208 | the attribute bindings never make a program current |
| Shaders.PrepareSwitches | TestDynamic/WebContent/goo/renderer/Shader.js:188-197 | the compile calls and the `useProgram` of the first half of `apply` make the program current exactly when it was not |
| Shaders.SwitchesKept | TestDynamic/WebContent/goo/renderer/Shader.js:199-212 | bindings and callback writes appended to a log leave its program switches as they were |
| Shaders.PushMatrix | TestDynamic/WebContent/goo/renderer/Shader.js:44-56 | the shared record and the log change as the cache semantics say |
| Shaders.Call | TestDynamic/WebContent/goo/renderer/Shader.js:211 | one callback call changes the outcome, the log and the record as `Invoke` says |
| Shaders.CallAt | TestDynamic/WebContent/goo/renderer/Shader.js:210-212 | one step of the callback loop: the calls issued so far, this callback's calls and the rest of the run still make up the whole run; a missing slot ends the run there |
| Shaders.CallAll | TestDynamic/WebContent/goo/renderer/Shader.js:210-212 | the loop over the callbacks ends with the outcome, record and log of the run specification |
| Shaders.Shader.constructor | TestDynamic/WebContent/goo/renderer/Shader.js:15-34 | empty tables, no program, and every default callback under its own name |
| Shaders.Shader.BindCallback | TestDynamic/WebContent/goo/renderer/Shader.js:217-219 | for a default callback or one of the application's own, the callbacks and their order change as `SetCallback` says, and nothing else changes |
| Shaders.Shader.FileDeclaration | TestDynamic/WebContent/goo/renderer/Shader.js:232-252 | the tables change as `Enroll` says |
| Shaders.Shader.InvestigateShader | TestDynamic/WebContent/goo/renderer/Shader.js:227-256 | the tables become the scan of every declaration of the source, in order |
| Shaders.Shader.InvestigateShaders | TestDynamic/WebContent/goo/renderer/Shader.js:221-225 | the tables become `Investigated` of the old tables and both sources |
| Shaders.Shader.ResolveAttributes | TestDynamic/WebContent/goo/renderer/Shader.js:284-287 | every attribute key gets the context's location of its variable |
| Shaders.Shader.ResolveUniforms | TestDynamic/WebContent/goo/renderer/Shader.js:289-305 | every uniform key gets its location and a call object on the program's one record; the record is created only when there is a uniform |
| Shaders.Shader.Compile | TestDynamic/WebContent/goo/renderer/Shader.js:258-308 | a fresh program; the build calls in the log; all keys resolved; call objects bound to the context and a new empty record; invariants kept |
| Shaders.Shader.BindAttributes | TestDynamic/WebContent/goo/renderer/Shader.js:199-208 | corrected behaviour (see Findings): the log grows by the bindings of the mesh attributes with resolved indices, in mesh order, each with the attribute's own `normalized` flag |
| Shaders.Shader.RunCallbacks | TestDynamic/WebContent/goo/renderer/Shader.js:210-212 | the outcome, program cache and log follow the run of the current callbacks in order; other programs' records are untouched |
| Shaders.Shader.FirstUse | TestDynamic/WebContent/goo/renderer/Shader.js:188-191 | the tables become `Investigated` of both sources, a program takes the next id, and every attribute index, uniform location and call object's location is the context's for that program's variables |
| Shaders.Shader.EnsureCompiled | TestDynamic/WebContent/goo/renderer/Shader.js:188-191 | on first use the tables are scanned and a program compiled, taking the next program id, and every attribute index and uniform location (and each call object's location) is the context's for the new program; afterwards nothing changes, the location tables included |
| Shaders.Shader.MakeCurrent | TestDynamic/WebContent/goo/renderer/Shader.js:193-197 | the program is current afterwards, and `useProgram` was issued only if it was not before |
| Shaders.Shader.Prepare | TestDynamic/WebContent/goo/renderer/Shader.js:188-197 | on first use the shader is scanned and compiled, with every attribute index and uniform location the context's for the new program, then the program is made current; a compiled shader keeps its program and every mapping; the program counter advances only on first use; a compiled shader keeps the record table; other programs' records and their values are untouched; the log switches to the program exactly when it was not current |
| Shaders.Shader.Apply | TestDynamic/WebContent/goo/renderer/Shader.js:184-215 | corrected behaviour for the `normalized` flag (see Findings): log is compile (first use), then use, then bindings, then the callback run; on first use every attribute index and uniform location is the context's for the new program, and a compiled shader keeps its program and every mapping; the program is current and the log switches to it exactly when it was not; the program counter advances only on first use; a compiled shader keeps the record table; every record is an old one or new; invariants are kept, and other programs' records are untouched |
| Shaders.Shader.Draw | TestDynamic/WebContent/goo/renderer/Shader.js:199-212 | corrected behaviour for the `normalized` flag (see Findings): the log grows by the bindings then the callback run, which switch no program; the program counter, current program and record table stay; other programs' records are untouched |
| Shaders.DrawTwice | TestDynamic/WebContent/goo/renderer/Shader.js:184-197 | two draws with one shader make its program current at most once, and not at all when it was current |
| Shaders.ApplyBeside | TestDynamic/WebContent/goo/renderer/Shader.js:184-197 | drawing with one shader keeps another compiled shader ready, with a different program, and switches only to the drawn program |
| Shaders.DrawAlternating | TestDynamic/WebContent/goo/renderer/Shader.js:184-197 | drawing with A, then B, then A switches to B and back to A, and to A first unless it was current; the two programs differ |
| Scripts.ScriptComponent.constructor | src/goo/entities/components/ScriptComponent.js:10-20 | an array is kept as the list; another truthy value becomes a one-script list; a falsy one becomes the empty list |
| Scripts.ScriptComponent.RunScripts | src/goo/entities/components/ScriptComponent.js:24-32 | the loop's calls, final list and exception are those of `RunFrom` over the length captured at the start; a throwing call is recorded and ends the loop |
| Scripts.RunFrom | src/goo/entities/components/ScriptComponent.js:24-32 | a run from index `i` to the captured length makes at most `max - i` calls |
| Scripts.SameArguments | src/goo/entities/components/ScriptComponent.js:29 | every call receives the entity and frame time the component was run with |
| Scripts.Selected | src/goo/entities/components/ScriptComponent.js:28 | a function is selected exactly when some script that should run has it as its `run` member |
| Scripts.RunCallsSelected | src/goo/entities/components/ScriptComponent.js:26-31 | on a list the scripts leave alone with no failing script, the calls are exactly the selected functions, in index order, the list is unchanged and the run ends normally |
| Scripts.RunThrowsOnFailure | src/goo/entities/components/ScriptComponent.js:28-29 | on a list the scripts leave alone, a run throws exactly when a script that should run has a `run` that is not a function or that throws |
| Scripts.ThrowingScriptStopsRun | src/goo/entities/components/ScriptComponent.js:29 | a script whose `run` throws is called, and the exception ends the run with that call as its last |
| Scripts.AppendedScriptsWait | src/goo/entities/components/ScriptComponent.js:25-26 | for every edit that only appends and every list with no failing script, the calls are exactly the selected functions of the list the run started with; appended scripts wait for the next run |
| Scripts.PastEndSkipped | src/goo/entities/components/ScriptComponent.js:26-28 | for every list, an index at or past its end reads `undefined`, so the rest of the run calls nothing and ends normally |
| Scripts.RemovedScriptsSkipped | src/goo/entities/components/ScriptComponent.js:26-29 | for every call that cuts the list down to its own index or less, the run ends normally with that call and the removed scripts are not called |
| Scripts.AppendedScriptWaits | src/goo/entities/components/ScriptComponent.js:26 | example: a script that appends a copy of itself is called once, and the copy is not called in that run |
| Scripts.RemovedScriptIsSkipped | src/goo/entities/components/ScriptComponent.js:26-28 | example: a first script that empties a two-script list keeps the second from being called |
| Scripts.DisabledNeverRuns | src/goo/entities/components/ScriptComponent.js:28 | a script whose `enabled` is defined and falsy is never called |
| Scripts.SingleScriptList | src/goo/entities/components/ScriptComponent.js:10-32 | a component built from one script calls it once if it should run, and not at all otherwise |

## Left out

- WebGL internals are not modelled: shader objects, `getError`, link status and info logs. The model issues the build calls and carries on as if they succeed. A failed stage compile or `createProgram` only logs in the source.
- Shaders.Shader.Compile: a failed link is not modelled. Its error branch at Shader.js:281 reads the undeclared variable `shaderProgram` (only `this.shaderProgram` exists), so it throws a `ReferenceError` before anything is logged. `compile` then ends with `this.shaderProgram` already set (Shader.js:269) and nothing from Shader.js:284-305 resolved. Every later `apply` skips `compile`, binds no attribute, and fails at the first wired callback. A failed stage compile leaves the program without that stage, so its link fails and ends at the same line. The model has no such failed state, and `Compile`, `FirstUse`, `EnsureCompiled`, `Prepare` and `Apply` describe a successful link only.
- `console.error` and `console.log` output is not modelled.
- The camera global `GooRunner.renderer.camera` is a parameter of `Apply`.
- The light position `THREE.Vector3(20, 20, 50)` is a constant.
- Matrix elements are `real`. IEEE rounding, NaN and infinities are not modelled.
- `ShaderCall` objects are a datatype holding context, record and location. The cache is keyed by the uniform's binding name, not by the call object. `compile` makes one call object per name, so the two keys agree within one compile.
- Objects are enumerated by `for ... in` in insertion order. Integer-like keys, which JavaScript enumerates first in numeric order, are not modelled. The mesh attribute map is an ordered list of key/attribute pairs.
- Custom callbacks set through `bindCallback` are opaque: the model records the call and nothing else. A `Custom` callback never throws and never writes a matrix or the uniform cache, so `Callbacks.RunAllOutcome`, `Callbacks.InvokeOutcome` and `Callbacks.RedrawWritesNoMatrix` hold for an application's own callback only when it behaves that way.
- The pattern's `base` in `getIndexedName` is taken as literal text; regex metacharacters in `base` or the separator are not interpreted.
- `StringUtil.hashCode` is not modelled: it relies on `btoa`, implicit globals and 32-bit arithmetic.
- StringUtil.Capitalize: its `UpperCase` maps only ASCII letters, and `toUpperCase` on other characters is not modelled. In JavaScript, `toUpperCase` can change the length (`"ß"` becomes `"SS"`), so the source's `capitalize` does not always keep the length the way this model does.
- Scripts.ScriptComponent.constructor: the stored list is a value, so aliasing with the caller's array is not modelled. A script's effect on the list is the `edit` parameter, which replaces the list as a whole. Whether a called function throws is the `throws` parameter; the list a throwing call leaves is its `edit`, and any catching is left to the caller.
- Script values are objects seen only through `run` and `enabled`. A `run` getter, `enabled` getters and inherited members are not modelled. Only objects carry a `run` member.
- Bindings.Enroll: wires a default callback only for a binding name that is a key of the defaults map. The source's `defaultCallbacks[bindingName] !== undefined` also holds for names inherited from `Object.prototype` (`valueOf`, `toString`, `constructor`, `hasOwnProperty`, ...), which it then wires as callbacks; those inherited members are not modelled.
- Bindings.EnrollEffect: states the effect for own keys of the defaults map only, for the same reason as `Enroll`.
- Bindings.Enroll: files a binding name `__proto__` (it matches `\w+`) like any other name. In the source, assigning a string to `this.attributeMapping.__proto__` or `this.uniformMapping.__proto__` (Shader.js:242, 247) goes through the `__proto__` setter, which ignores a string, so nothing is filed. The model's tables are maps with no such special key. The callback test at Shader.js:250-251 sees `Object.prototype` there and assigns it to `currentCallbacks.__proto__`, which is already `Object.prototype`, so no callback is wired, as in the model.
- Shaders.Shader.Apply: binds each attribute with its own `normalized` flag (the corrected `NormalizedFlag`), not the always-`true` value Shader.js:206 computes; the as-written value is `NormalizedAsWritten`.
- Shaders.Shader.BindAttributes: logs the corrected `normalized` flag, for the same reason as `Apply`.
- Shaders.Shader.BindAttributes: a mesh attribute key that names an inherited `Object.prototype` member (`toString`, `constructor`, ...) is not modelled. The source's `this.attributeIndexMapping[key]` (Shader.js:203-204) then finds the inherited function, which is `!== undefined`, and issues a `bindVertexAttribute` with that function as its index. The model issues no binding for a key missing from the index map, and `Shaders.BindCallsExact` states that behaviour. The `__proto__` binding name of the `Bindings.Enroll` line is not modelled here either.
- Shaders.Shader.Draw: logs the corrected `normalized` flag through `BindAttributes`, for the same reason as `Apply`.
- StringUtil.GetUniqueName: runs the corrected index fold, so it never returns a taken name; the as-written fold is `FinalIndexAsWritten`, which returns the taken `"foo_1"` for `getUniqueName("foo", ["foo_1", "foo"])`. Its index is an unbounded `nat`; see the `StringUtil.FinalIndex` line.
- StringUtil.GetIndexedName: runs the corrected index fold, for the same reason as `GetUniqueName`. Its index is an unbounded `nat`; see the `StringUtil.FinalIndex` line.
- StringUtil.FinalIndex: the index arithmetic and its decimal spelling match the source only for suffix numbers below 2^53. JavaScript numbers are IEEE doubles, so `parseInt("9007199254740992") + 1` is `9007199254740992` again, and from 1e21 `String(n)` spells the number in exponent form. The same holds for `StringUtil.FinalIndexAsWritten`, `StringUtil.AsWrittenLastNumberedExceeds`, `StringUtil.FinalIndexBounds`, `StringUtil.IndexedNameIsFree`, `StringUtil.GetIndexedName`, `StringUtil.GetUniqueName` and `Decimal.ParseDecimalString`, which are proved over unbounded integers.
- Decimal.ParseDecimalString: proved for every `nat`; JavaScript's `parseInt` and `String` agree with it only below 2^53 (see the `StringUtil.FinalIndex` line).
- StringUtil.FinalIndexAsWritten: unbounded index; exact for suffix numbers below 2^53 only (see the `StringUtil.FinalIndex` line).
- StringUtil.AsWrittenLastNumberedExceeds: unbounded index; exact for suffix numbers below 2^53 only (see the `StringUtil.FinalIndex` line).
- StringUtil.FinalIndexBounds: unbounded index; above 2^53 the source's `index + 1` can equal `index`, so "ends above every suffix number" holds for the source only below 2^53.
- StringUtil.IndexedNameIsFree: unbounded index; for suffix numbers of 2^53 or more the source can return a taken name through rounding (see the `StringUtil.FinalIndex` line).
- Shaders.Shader.Apply: an exception from a callback ends `apply`. The model reports it as the `MissingSlot` outcome instead of propagating it, and the later callbacks do not run.

## Findings

| source | as written | input that shows it | evidently intended | confidence | as-written member | corrected member |
|---|---|---|---|---|---|---|
| TestDynamic/WebContent/goo/renderer/Shader.js:206 | `attribute.normalized \|\| true` is always `true` | an attribute with `normalized: false` is bound as normalised | use the attribute's flag, defaulting to `true` when it has none | not executed | Shaders.NormalizedAsWrittenIgnoresFlag | Shaders.NormalizedFlag |
| src/goo/util/StringUtil.js:31 | a taken name containing `base` with no numeric suffix sets the index back to 1 | `getUniqueName("foo", ["foo_1", "foo"])` returns `"foo_1"`, which is taken | only raise the index to at least 1 | not executed | StringUtil.AsWrittenReturnsTakenName | StringUtil.IndexedNameIsFree |

Apart from the two corrected members named in the table above, where the code and its documentation disagree the model follows the code:

- The repeated annotation group in the declaration pattern keeps the **last** `// !Name` of a chain, not the first.
- Attribute declarations also pick up a default callback when their binding name has one. The callback then throws in `apply` because no uniform call object exists for it; the model reports this as `MissingSlot`.
- Sampler uniforms are counted but are not wired to a `TEXTUREn` callback unless their binding name is `TEXTUREn`.
