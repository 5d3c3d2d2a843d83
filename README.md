# Sketchy Structures, modelled in Dafny

Sketchy Structures is a Scriptographer script. The user selects paths in a drawing. The script samples points along them and draws straight lines between pairs of points whose distance lies inside a length band. Each line's stroke width is remapped from its distance. The lines can join the selected paths to each other and to themselves (the "Execute" button, `handleCross`), or join the mouse pointer to the samples and to a cache of earlier pointer positions (`handleMouse`; the "Empty" button clears the cache).

The model works over exact reals and has seven modules:

- `Geometry`: points, an `Option` type, and the distance, which is a parameter of every operation.
- `Config`: the settings record `dvls` with its defaults, and the option lists `divo` and `ocyo`.
- `RangeMap`: the linear remap `mapVals`.
- `Connect`: the connection engine `drawPaths`.
  - The imperative `DrawPaths` (with its inner loop `DrawRow`) is proved equal to the functional specification `Drawing`.
  - The band filter, enumeration order, stroke widths and opacity scope are proved about `Drawing`.
- `Divide`: the sampler `dividePaths`.
  - A host path is reduced to its length and a partial `getPoint`.
  - The `while` loop of `SamplePath` is proved equal to `Samples`, whose offsets and contents the lemmas describe.
- `Topology`: the sequence of `(i, j, self)` engine calls `handleCross` makes.
- `Sketchy`: the script's session object.
  - It holds the settings and the pointer cache `msch`.
  - Its methods are the pointer handler, the cache reset and the batch protocol. The batch protocol is proved to draw exactly the groups of the `Topology` call sequence.

The engine returns what the script creates: one `Group` record holding the `Line` records, in creation order. A line's or group's opacity is `None` when the script does not set it.

## Model

| member | source | states |
|---|---|---|
| `Config.DefaultModes` | sketchyStructs.js:14-31 | the start-up `dvls` (with `divBy = divo[0]`, `opctyGrp = ocyo[1]`) divides by length, sets opacity per line, has a non-empty length band and an increasing stroke range, and turns caching and self reference on |
| `Divide.Step` | sketchyStructs.js:79-86 | `dvln`: `divNum` when `divBy` is `"Length"` (`dvtp`); otherwise the step that divides the path's length into `divNum` parts |
| `Divide.DefaultsSamplable` | sketchyStructs.js:25-26 | with the default settings every path is sampled every 10 units, so the loop at :89 ends |
| `RangeMap.MapVals` | sketchyStructs.js:34-36 | defined only when `from1 != from0`; maps `from0` to `to0` and `from1` to `to1` |
| `RangeMap.MapValsAffine` | sketchyStructs.js:34-36 | the remap is affine: it preserves every weighted combination `t*v1 + (1-t)*v2` |
| `RangeMap.MapValsBetween` | sketchyStructs.js:34-36 | a value inside `[from0, from1]` lands between `to0` and `to1`, in whichever order those two are given |
| `RangeMap.MapValsMonotone` | sketchyStructs.js:34-36 | with `from0 < from1` and `to0 <= to1` the remap is non-decreasing |
| `Connect.RowSpec` | sketchyStructs.js:56 | the inner loop from column `j0` up to `j` visits `(i, j0)`, `(i, j0+1)`, ..., `(i, j-1)`, in that order |
| `Connect.CandidatesSpec` | sketchyStructs.js:53-57 | a pair is examined exactly when it is in range and, in self mode, `i < j`; pairs come in strict i-major order, so none twice; outside self mode there are `|A| * |B|` of them |
| `Connect.KeptMember` | sketchyStructs.js:60 | a pair survives the filter exactly when it is a candidate whose distance passes the band test |
| `Connect.KeptIncreasing` | sketchyStructs.js:53-60 | filtering keeps the candidates' order |
| `Connect.LinesOfKept` | sketchyStructs.js:60-65 | there is one line per surviving pair, in the same order, each built from that pair's two points |
| `Connect.LinesSnoc` | sketchyStructs.js:60-65 | one more candidate adds its line at the end exactly when it passes the band test |
| `Connect.RowStep` | sketchyStructs.js:56-66 | examining column `j` of row `i` adds a line exactly when `minLength < d < maxLength` |
| `Connect.LinesAppend` | sketchyStructs.js:53-67 | the lines of two runs of candidates are the lines of the first run followed by those of the second |
| `Connect.ConnectedSpec` | sketchyStructs.js:53-66 | a pair is connected iff it is examined and its distance is strictly inside `(minLength, maxLength)`; connected pairs come in i-major order; the group's children are the lines of those pairs, in order |
| `Connect.SelfModePairs` | sketchyStructs.js:56 | in self mode no connected pair has `i >= j`, and no unordered pair is connected in both orders |
| `Connect.StrokeWidths` | sketchyStructs.js:60-62 | every line joins points at a distance inside the band; its stroke width is `mapVals(d, minLength, maxLength, minStroke, maxStroke)`; that width lies between the two stroke settings |
| `Connect.OpacityScope` | sketchyStructs.js:42-72 | when `opctyGrp` is `"Group"` (`ogrp`) only the group carries the opacity; in any other mode every line carries it and the group's is unset |
| `Connect.NoDegenerateLines` | sketchyStructs.js:58-60 | with `minLength >= 0` no line joins a point to an equal point |
| `Connect.DrawRow` | sketchyStructs.js:56-67 | the inner loop returns exactly the lines of row `i`'s candidates from column `j0` on |
| `Connect.DrawPaths` | sketchyStructs.js:40-73 | the nested loops return exactly one group, equal to `Drawing`: the lines of the connected pairs in visiting order, with the opacity placed by mode |
| `Divide.SampleCountSpec` | sketchyStructs.js:84-99 | the loop visits offset `k * step` exactly when `k * step <= length` |
| `Divide.SamplesUpToSpec` | sketchyStructs.js:94-97 | a point is among the first `n` samples iff `getPoint` resolves it at one of the first `n` offsets; there are at most `n` samples |
| `Divide.SamplesSpec` | sketchyStructs.js:84-99 | a path's samples are the non-null points at offsets `k * step <= length`; there are at most as many as offsets visited |
| `Divide.FirstSample` | sketchyStructs.js:84-96 | the first offset is 0: when a non-negative-length path resolves a point there, that point is the first sample |
| `Divide.NumberModeCount` | sketchyStructs.js:86-99 | in "Number" mode with `divNum = N > 0` on a positive-length path the step is usable; exactly `N + 1` offsets are visited; the last is the path's length; at most `N + 1` points are kept |
| `Divide.SamplePath` | sketchyStructs.js:84-99 | the `while` loop returns exactly `Samples` of the path at the given step |
| `Divide.SampleAll` | sketchyStructs.js:82-103 | one sample list per path |
| `Divide.SampleAllSpec` | sketchyStructs.js:82-103 | list `i` is the samples of path `i` at that path's step (`divNum`, or `length / divNum` in "Number" mode) |
| `Divide.FlattenAppend` | sketchyStructs.js:102 | concatenating the lists of two runs of paths is concatenating each run's concatenation |
| `Divide.FlattenMember` | sketchyStructs.js:102 | a point is in the flattened result iff it is in one of the per-path lists |
| `Divide.DividePaths` | sketchyStructs.js:77-106 | with `wrap` the result is one list per path in path order; without it the result is the concatenation of those lists in path order |
| `Topology.Ring` | sketchyStructs.js:139-149 | the first `m` neighbour calls: `m` calls, all in range, none in self mode |
| `Topology.Selfs` | sketchyStructs.js:151-155 | `n` self calls, call `k` being `(k, k, true)` |
| `Topology.CrossCalls` | sketchyStructs.js:137-155 | the batch makes `CrossCount(n)` neighbour calls plus `n` self calls when self reference is on, all in range |
| `Topology.Successor` | sketchyStructs.js:140-144 | the partner of path `k` is `k + 1`, and 0 after the last path |
| `Topology.NeighbourCallsDistinct` | sketchyStructs.js:138-149 | no neighbour call pairs a path with itself, and no two neighbour calls join the same two paths, in either order |
| `Topology.NeighboursCovered` | sketchyStructs.js:138-149 | with at least two paths every path is joined with its cyclic successor by some neighbour call |
| `Topology.CycleCalls` | sketchyStructs.js:138-149 | for `n >= 3` the neighbour calls are exactly `(0,1), (1,2), ..., (n-2,n-1), (n-1,0)` |
| `Topology.SmallSelections` | sketchyStructs.js:137-155 | three paths give the triangle; two paths give only `(0,1)`; one path gives only its self call, and only with self reference; no paths give nothing |
| `Sketchy.DrawCalls` | sketchyStructs.js:148-153 | one group per engine call |
| `Sketchy.DrawCallsSnoc` | sketchyStructs.js:148-153 | one more call draws one more group, at the end |
| `Sketchy.DrawCallsAppend` | sketchyStructs.js:138-155 | the groups of two runs of calls are those of the first run followed by those of the second |
| `Sketchy.DrawCallsAt` | sketchyStructs.js:148-153 | group `k` is the engine's drawing for call `k` |
| `Sketchy.NeighbourGroups` | sketchyStructs.js:137-150 | the batch's first groups draw list `k` against its cyclic successor, for each of the `CrossCount(n)` neighbour calls |
| `Sketchy.SelfGroups` | sketchyStructs.js:151-155 | with self reference on, the neighbour groups are followed by list `k` against itself in self mode, for every `k` in order |
| `Sketchy.NeighbourStep` | sketchyStructs.js:140-148 | drawing list `i` against its successor extends the groups of the first `i` neighbour calls to those of the first `i + 1` |
| `Sketchy.PointerLines` | sketchyStructs.js:114-123 | every line of a pointer event starts at the pointer and ends at a target; with `minLength >= 0` none ends at a point equal to the pointer, so the pairing with its own cached copy is rejected |
| `Sketchy.Session.constructor` | sketchyStructs.js:14-31 | the script starts with the default settings and an empty cache |
| `Sketchy.Session.ClearCache` | sketchyStructs.js:239-241 | the cache becomes empty; the settings are unchanged |
| `Sketchy.Session.HandleMouse` | sketchyStructs.js:109-124 | with nothing selected and caching off nothing is drawn and nothing changes; otherwise the cache grows by exactly the pointer point when caching is on, and one non-self group joins the pointer to the flattened samples followed by the whole cache |
| `Sketchy.Session.HandleCross` | sketchyStructs.js:129-156 | the groups drawn are exactly those of the call sequence `CrossCalls` over the per-path sample lists |
| `Sketchy.Session.CrossNeighbours` | sketchyStructs.js:137-150 | the first loop with its early `break` draws exactly the neighbour calls `Ring(n, CrossCount(n))` |
| `Sketchy.Session.CrossSelves` | sketchyStructs.js:151-155 | the second loop draws each list against itself, in order, when self reference is on and at least one path is selected; otherwise nothing |

## Left out

- The Scriptographer user interface is not modelled: the `sscmp` component table, `new Palette(...)` and the `onMouseDown`/`onMouseDrag` binding (sketchyStructs.js:159-261). The settings are a field of the session; the palette's edits of it are not modelled.
- Host objects are not modelled as scene objects. `document.getItems` becomes the sequence of selected paths, passed as a parameter. A path is reduced to its length and its `getPoint`. `Path.Line` and `Group` become the records `LineRec` and `GroupRec`; nothing is inserted into a document.
- Floating point is not modelled: all arithmetic is exact. In floating point, accumulating `evll += dvln` can drop the final boundary sample. The model adds no error, so it computes offset `k` as `k * step`.
- The Euclidean distance `(cpt1 - cpt2).length` and its square root are not modelled. The distance is an abstract function. Lemmas that need it to be non-negative and zero on equal points say so with `IsDistance`.
- Sampler termination is a precondition (`Samplable`): the step must be positive. With a zero or negative step, the source's `while` at sketchyStructs.js:89 never ends.
- "Number" mode with `divNum == 0` is excluded. In JavaScript, `length / 0` is `Infinity` or, for a zero-length path, `NaN`; either way the loop runs once, so there is at most one sample, at offset 0. That is a floating-point behaviour.
- The `if (evll > pthl) break;` at sketchyStructs.js:90-92 is not modelled. It is dead code, since the loop guard is `evll <= pthl`.
- `handleCross` reads `dpts` only when at least one path is selected, so its undefined `dpts` for an empty selection is never indexed. The model uses the empty list there.
