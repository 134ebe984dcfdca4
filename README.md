# SgsQtSpine compositor core, modelled in Dafny

SgsQtSpine draws several Spine skeletal-animation "units" into one Qt Quick
framebuffer item. It has two objects.

- `SpineViewport` lives on the GUI side. It holds the unit configuration
  list and the latest command list triggered by QML.
- `SpineRenderer` lives on the render side. It loads the units once when it
  is constructed. On every frame it takes the pending commands, runs them
  against the unit animation states, and advances every unit by a clamped
  time step. It then draws each unit's slots in draw order, under the
  skeleton clipper, with one blend pair per slot.

The model keeps this split:

| file | module | contents |
|---|---|---|
| `wrappers.dfy` | `Wrappers` | `Option` |
| `engine.dfy` | `SpineEngine` | what the model sees of the spine-c runtime: attachments, slots, skeletons, animation lookup, the animation-state call log, the clipper's state machine, and engine oracles |
| `blend.dfy` | `Blend` | `setBlend` as a pure function from blend mode and alpha convention to a blend pair |
| `units.dfy` | `UnitLoading` | configuration records, the asset oracles and the unit-loading fold that the constructor is proved against |
| `triggers.dfy` | `Triggers` | `findUnit`, the track operations a command issues, and the command fold `executeTrigger` is proved against |
| `drawing.dfy` | `Drawing` | `drawUnit` and the frame's draw loop as a left fold over a draw state of clipper, blend pair, scratch buffers, draw-call log and clipper-call log |
| `stepping.dfy` | `Stepping` | the time-step clamp and the per-unit animation step |
| `compositor.dfy` | `Compositor` | the `SpineRenderer` and `SpineViewport` classes, with imperative methods proved against the functions above |

Engine calls whose internals are not part of this model are oracles:

- `Engine.pose` is `spAnimationState_apply` followed by
  `spSkeleton_updateWorldTransform`.
- `Engine.clipTriangles` is `spSkeletonClipping_clipTriangles`.
- `Assets.setup` is skeleton creation plus the setup pose and the first
  world transform.
- `Assets.parse` is the binary skeleton reader.
- `Assets.atlases` and `Assets.files` stand for the file system.

Attachment world vertices are taken as already computed.

An animation state is observed as the log of calls made to it: track
operations and update steps. The GL draws are observed as a log of
`DrawCall`s. The clipper calls are observed as a log of `ClipEvent`s.

The clipper's behaviour comes from spine-c's `SkeletonClipping.c`, which is
not part of this model:

- `clipStart` does nothing while a clip region is open.
- `clipEnd(slot)` closes the region exactly at its end slot.
- `clipEnd2` always closes.

One triangle needs only 3 vertices (6 floats), but the size test at
`spinerenderer.cpp:339` asks for at least 8 position floats and 3 indices.
The test reads the counts after clipping, so with no clip region open a
single-triangle mesh is never drawn (`Drawing.SingleTriangleMeshNotDrawn`);
under an open region the clipper may turn it into a polygon that passes.

`setBlend` obeys its second argument. `drawUnit` declares
`premultipliedAlpha = false` but calls `setBlend(mode, true)`, so every draw
uses the premultiplied pairs. The model does the same.

## Model

| member | source | states |
|---|---|---|
| SpineEngine.FindAnimation | spinerenderer.cpp:75 | the index of the first animation with that name; None exactly when no animation has that name |
| SpineEngine.ClipStart | spinerenderer.cpp:243-249 | a closed clipper opens exactly the given clip region; a region already open is kept |
| SpineEngine.ClipEnd | spinerenderer.cpp:379 | `clipEnd(slot)` closes the open region exactly when the slot is its end slot, and otherwise changes nothing |
| SpineEngine.IsClipping | spinerenderer.cpp:308 | definition (a clip region is open); used by the clipper functions and `Drawing.FinalGeometry` |
| SpineEngine.ClipEnd2 | spinerenderer.cpp:382 | `clipEnd2` leaves no region open |
| Blend.BlendFactors | spinerenderer.cpp:178-197 | only straight alpha with a normal, additive or unknown mode weights the source by alpha; only multiply uses the destination colour; only additive keeps the destination; only screen inverts the source colour; all other modes use one-minus-source-alpha; the source factor is one exactly for screen and for premultiplied alpha outside multiply; together these fix all eight pairs |
| Blend.MultiplyAndScreenIgnoreAlpha | spinerenderer.cpp:184-185 | multiply and screen give the same pair under both alpha conventions |
| Blend.UnknownModeIsNormal | spinerenderer.cpp:186 | an unrecognised mode falls back to the normal pair of its convention |
| Blend.ConventionsDifferInSourceOnly | spinerenderer.cpp:180-196 | the two conventions always agree on the destination factor, and differ exactly for modes other than multiply and screen |
| UnitLoading.DefaultOps | spinerenderer.cpp:72-77 | at most one operation; one exactly when the default animation is named and exists; it is a looping set on track 0 of the first animation with that name |
| UnitLoading.LoadUnit | spinerenderer.cpp:12-79 | a record yields a unit exactly when each gate passes, in the constructor's order: name, atlas and skel present, atlas loads, skel file exists and is non-empty, it opens, it parses; each skip reason (invalid config, atlas failed, skel missing, skel unreadable, parse failed) is reported exactly when its gate is the first to fail; a loaded unit carries its atlas, scale (default 1), parsed data, position x/y (default 0) on both unit and skeleton, the setup-pose skeleton of the parsed data with that position, and its default animation |
| UnitLoading.Load | spinerenderer.cpp:12-81 | definition: the loading fold over the records, left to right; properties in `UnitLoading.LoadAppend`, `LoadSkipsRejected`, `LoadKeepsAccepted`, `LoadedUnitsFullyBuilt`, `LoadedUnitsInInputOrder`; the constructor is proved against it |
| UnitLoading.LoadAppend | spinerenderer.cpp:12-81 | loading a concatenation gives the units of each part, in order |
| UnitLoading.LoadSingle | spinerenderer.cpp:12-81 | one record gives its unit or nothing |
| UnitLoading.LoadSkipsRejected | spinerenderer.cpp:20-57 | a rejected record anywhere in the list changes no other unit, and removes none |
| UnitLoading.LoadKeepsAccepted | spinerenderer.cpp:79 | an accepted record contributes exactly its unit, between its neighbours' units |
| UnitLoading.LoadedUnitsFullyBuilt | spinerenderer.cpp:59-79 | there are no more units than records, and every unit has a name, a skeleton and an animation state |
| UnitLoading.LoadedUnitsInInputOrder | spinerenderer.cpp:12-81 | the k-th unit is the unit of the k-th accepted record, and accepted records appear in input order |
| Triggers.FindUnit | spinerenderer.cpp:199-202 | the index of the first unit with that name, or None when no unit has it |
| Triggers.OpFor | spinerenderer.cpp:216-224 | definition: position 0 sets, later positions add with delay 0, only the last position takes loopLast; properties in `Triggers.SetOnlyFromFirstPosition`, `LoopOnlyAtLastPosition`, `OpsTargetTrack` |
| Triggers.OpAt | spinerenderer.cpp:219-224 | definition: an unresolved name issues nothing, a resolved one its `OpFor` operation; properties in `Triggers.QueueOpsFromResolved`, `UnresolvedQueueIssuesNothing` |
| Triggers.QueueOps | spinerenderer.cpp:215-225 | definition: the operations of the first n queue positions, in order; properties in `Triggers.QueueOpsFromResolved`, `SetOnlyFromFirstPosition`, `LoopOnlyAtLastPosition`, `ThreeNameQueue`; `Compositor.SpineRenderer.IssueQueue` is proved against it |
| Triggers.ResolvedShape | spinerenderer.cpp:215-221 | the resolving queue positions are in range, strictly increasing, and include every position whose name resolves |
| Triggers.QueueOpsFromResolved | spinerenderer.cpp:215-225 | a queue issues one operation per resolving position, in queue order; each operation is the one for its position and its found animation |
| Triggers.SetOnlyFromFirstPosition | spinerenderer.cpp:223-224 | only position 0 issues a set; when its name does not resolve, every issued operation is an add |
| Triggers.LoopOnlyAtLastPosition | spinerenderer.cpp:216-217 | only the last queue position can loop, and it loops exactly when loopLast is set; an unresolved last name means nothing loops |
| Triggers.OpsTargetTrack | spinerenderer.cpp:212-224 | every operation goes to the command's track, and every add has zero delay |
| Triggers.ThreeNameQueue | spinerenderer.cpp:215-225 | queue [A, B, C] is set A without looping, add B without looping, then add C looping as loopLast says |
| Triggers.UnresolvedQueueIssuesNothing | spinerenderer.cpp:220-221 | a queue of unknown animation names issues nothing |
| Triggers.ApplyCommand | spinerenderer.cpp:205-226 | one command: every unit keeps its animation state, and the unit count is unchanged; which unit gets which operations is in `Triggers.CommandReachesFirstMatchOnly` and `UnknownUnitIsNoOp` |
| Triggers.ApplyCommands | spinerenderer.cpp:204-227 | definition: the commands applied in list order; keeps the unit count and every state; properties in `Triggers.TriggersOnlyAppendOps`, `TriggersKeepFullyBuilt`; `Compositor.SpineRenderer.ExecuteTrigger` is proved against it |
| Triggers.TriggersOnlyAppendOps | spinerenderer.cpp:204-227 | commands only append track operations; names, data, skeletons, positions, update steps and unit order are unchanged |
| Triggers.UnknownUnitIsNoOp | spinerenderer.cpp:208-209 | a command for an unloaded unit name changes nothing |
| Triggers.UnknownAnimationsAreNoOp | spinerenderer.cpp:220-221 | a command whose names resolve in no unit changes nothing |
| Triggers.CommandReachesFirstMatchOnly | spinerenderer.cpp:199-209 | only the first unit with the command's name gets its operations |
| Triggers.TriggersKeepFullyBuilt | spinerenderer.cpp:204-227 | commands keep every unit fully built |
| Drawing.Vertices | spinerenderer.cpp:344-353 | definition: one interleaved vertex per position pair with the given colour; properties in `Drawing.DrawnCall`, `RegionQuad`, `MeshCopy`; `Compositor.SpineRenderer.FillVertices` is proved against it |
| Drawing.DrawSlot | spinerenderer.cpp:237-379 | definition: one draw-order position; properties in `Drawing.DrawSlotDrawsIff`, `DrawnCall`, `DrawSlotClipEvents`, `DrawSlotOnlyReadsClipper`; `Compositor.SpineRenderer.DrawSlotAt` is proved against it |
| Drawing.DrawSlots | spinerenderer.cpp:236-380 | definition: the first n positions in draw order; properties in `Drawing.DrawsInDrawOrder`, `ClipLogOfTraversal`, `NoClipAttachmentNoClipping`, `DrawSlotsOnlyReadClipper` |
| Drawing.DrawUnitState | spinerenderer.cpp:382 | after a unit, no clip region is open, and the last clipper call is its `clipEnd2` |
| Drawing.DrawSlotDrawsIff | spinerenderer.cpp:237-380 | a position adds one draw call exactly when it is non-null, shows a region or mesh with a page texture, and its final geometry is not degenerate; otherwise it adds none, and earlier draws are kept |
| Drawing.DrawnCall | spinerenderer.cpp:256-372 | a draw call carries its unit and position, the premultiplied blend pair of the slot's mode, the page texture, and the final geometry's indices; it has one vertex per position pair, coloured with the skeleton colour times the slot colour; the scratch buffers then hold exactly the uploaded data |
| Drawing.RegionQuad | spinerenderer.cpp:267-278 | with no clip region open and a page texture, a region draws four vertices at its world corners with its UVs, and the triangles 0,1,2 and 2,3,0 |
| Drawing.MeshCopy | spinerenderer.cpp:279-342 | with no clip region open and a page texture, a mesh reproduces its UVs and triangle list when it has at least 8 floats and 3 indices, and draws nothing otherwise |
| Drawing.SingleTriangleMeshNotDrawn | spinerenderer.cpp:339-342 | with no clip region open, a three-vertex mesh is never drawn |
| Drawing.DegenerateStillSetsBlend | spinerenderer.cpp:305-342 | a slot skipped as degenerate has still set its blend pair |
| Drawing.DrawSlotAddsAtMostOne | spinerenderer.cpp:237-380 | one position adds at most one draw call, tagged with that position |
| Drawing.DrawsInDrawOrder | spinerenderer.cpp:236-380 | a traversal only appends draw calls, all of that unit and in strictly increasing draw-order position |
| Drawing.DrawSlotClipEvents | spinerenderer.cpp:243-379 | one position appends exactly its clipper calls: none when null; clipStart then clipEnd for a clipping attachment; clipEnd otherwise |
| Drawing.ClipLogOfTraversal | spinerenderer.cpp:236-380 | a traversal appends exactly the clipper calls of its positions, in order |
| Drawing.OneClipEndPerSlot | spinerenderer.cpp:236-380 | every non-null position gets exactly one `clipEnd`, and null positions get none |
| Drawing.ClipStartThenEnd | spinerenderer.cpp:245-247 | every `clipStart` is immediately followed by the `clipEnd` of the same slot |
| Drawing.NoClipAttachmentNoClipping | spinerenderer.cpp:243-337 | without clipping attachments the clipper never opens, so geometry is never clipped |
| Drawing.DrawSlotOnlyReadsClipper | spinerenderer.cpp:237-380 | what a position draws, and the clipper it leaves, depend only on the clipper it meets |
| Drawing.DrawSlotsOnlyReadClipper | spinerenderer.cpp:236-380 | the same for a whole traversal |
| Drawing.DrawUnits | spinerenderer.cpp:425-427 | definition: the frame's draw loop over units with a skeleton, in order; properties in `Drawing.FrameDrawsPerUnit`; `Compositor.SpineRenderer.DrawAll` is proved against it |
| Drawing.FrameDrawsPerUnit | spinerenderer.cpp:425-427 | starting with no open region, a frame draws each unit's own draws in unit order, as if each unit started fresh; no clip region of one unit reaches the next |
| Stepping.ElapsedSeconds | spinerenderer.cpp:403 | definition: the gap between two nanosecond readings, in seconds; used by `Compositor.SpineRenderer.Tick` |
| Stepping.ClampDt | spinerenderer.cpp:405-406 | the step is in [0, 0.05]; a raw step in range is kept; a negative one becomes 0; a longer one becomes 0.05 |
| Stepping.ClampIdempotent | spinerenderer.cpp:405-406 | clamping a clamped step changes nothing |
| Stepping.ClampMonotone | spinerenderer.cpp:405-406 | clamping keeps the order of steps |
| Stepping.StepUnit | spinerenderer.cpp:408-413 | definition: a unit with a state and a skeleton records one update by dt and gets its new pose; any other unit is left alone; properties in `Stepping.StepTouchesOnlyPose` |
| Stepping.StepUnits | spinerenderer.cpp:408-413 | stepping keeps the unit count |
| Stepping.StepTouchesOnlyPose | spinerenderer.cpp:408-413 | stepping changes only states and skeletons; a unit with both records one update by dt and gets the pose of its updated state; any other unit is unchanged |
| Stepping.StepKeepsFullyBuilt | spinerenderer.cpp:408-413 | stepping keeps every unit fully built |
| Compositor.CopyFloats | spinerenderer.cpp:286-289 | the copy is the first n floats of the source |
| Compositor.CopyIndices | spinerenderer.cpp:291-292 | the copy equals the triangle list |
| Compositor.LoadRecord | spinerenderer.cpp:13-79 | one loop iteration: the checks in source order, each failure skipping the record, then the built unit; the result is exactly `UnitLoading.LoadUnit` of the record |
| Compositor.SpineRenderer.constructor | spinerenderer.cpp:11-82 | the unit list is the loading fold of the configuration list; every unit is fully built; nothing else is set up |
| Compositor.SpineRenderer.Synchronize | spinerenderer.cpp:96-99 | the renderer's pending list is the viewport's old list, and the viewport's list is empty |
| Compositor.SpineRenderer.InitGlIfNeeded | spinerenderer.cpp:108-176 | the first call creates a closed clipper and sets blend pair (one, one-minus-source-alpha); later calls change nothing |
| Compositor.SpineRenderer.ExecuteTrigger | spinerenderer.cpp:204-227 | the units become the command fold applied to the old units |
| Compositor.SpineRenderer.IssueQueue | spinerenderer.cpp:211-225 | the target unit gets exactly the queue's operations; no other unit changes |
| Compositor.SpineRenderer.AdvanceUnits | spinerenderer.cpp:408-413 | the units become the stepped units, and full construction is kept |
| Compositor.SpineRenderer.CallClipEnd | spinerenderer.cpp:379 | the clipper takes the `clipEnd` step and the call is logged |
| Compositor.SpineRenderer.FillVertices | spinerenderer.cpp:344-353 | the vertex buffer is resized and holds the interleaved vertices of the final geometry |
| Compositor.SpineRenderer.FillIndices | spinerenderer.cpp:355-356 | the index buffer is resized and holds the final indices |
| Compositor.SpineRenderer.DrawSlotAt | spinerenderer.cpp:237-379 | the drawing state becomes the slot step of the old state |
| Compositor.SpineRenderer.DrawUnit | spinerenderer.cpp:229-383 | without a clipper nothing changes; otherwise the drawing state becomes the unit traversal followed by `clipEnd2` |
| Compositor.SpineRenderer.RunPending | spinerenderer.cpp:388-391 | pending commands are executed and then cleared |
| Compositor.SpineRenderer.Tick | spinerenderer.cpp:398-406 | the timer is started on the first frame; the step is the clamped time since the previous reading; the last reading becomes now |
| Compositor.SpineRenderer.BeginFrame | spinerenderer.cpp:386-413 | GL is set up; commands are run and cleared; the timer is advanced; units are stepped; the drawing state is the one after GL set-up |
| Compositor.SpineRenderer.DrawAll | spinerenderer.cpp:425-427 | the drawing state becomes the frame fold over the units, draws are each unit's own draws in unit order, and no clip region stays open |
| Compositor.SpineRenderer.Render | spinerenderer.cpp:385-431 | one frame: units become the stepped result of the pending commands applied to the old units; pending is cleared; dt is in [0, 0.05] and is the clamped gap since the last reading; the drawing state is the frame fold; draws are each unit's own draws in order; the renderer stays valid |
| Compositor.SpineViewport.constructor | spineviewport.cpp:4 | no units and no pending commands |
| Compositor.SpineViewport.SetUnits | spineviewport.h:13 | the configuration list is replaced |
| Compositor.SpineViewport.Trigger | spineviewport.cpp:10-13 | the pending list is replaced (not extended) by the new commands |
| Compositor.SpineViewport.TakeCommands | spineviewport.cpp:15-19 | returns the pending list and leaves it empty |
| Compositor.SpineViewport.CreateRenderer | spineviewport.cpp:6-8 | a fresh renderer built from the current configuration list |
| Compositor.TriggerOverwrites | spineviewport.cpp:10-19 | after two triggers, a take returns only the second list, and a second take returns nothing |
| Compositor.TriggerThenFrame | spinerenderer.cpp:385-413 | a triggered list handed over by synchronize is run by the next frame, and nothing is pending afterwards |

## Left out

- GL plumbing is not modelled. That covers shaders, VAO/VBO/IBO creation
  and upload, `glDrawElements`, the viewport, the clear colour, the
  orthographic matrix, texture binding and `createFramebufferObject`. A
  draw is recorded as a `DrawCall` carrying what would be uploaded and
  bound.
- The spine-c runtime's internals are oracles or are left out. This covers
  world-vertex computation, `clipTriangles`, animation update and apply,
  the world transform, atlas loading and binary parsing.
- `SkeletonClipping.c` is not part of this model. The clipper's state
  machine is written from spine-c's documented behaviour.
- Floating point is modelled as real numbers, so the clamp is exact.
  This affects `float(ns) / 1e9f`, the constant `0.05f`, `toFloat()`
  scales and positions, and colour products.
- `Compositor.SpineRenderer.Tick`: the timer readings are parameters. The
  model does not claim that the first frame's step is exactly 0; it is the
  gap between the two readings taken in that frame.
- QVariant conversion is reduced to optional fields with the source's
  defaults. This covers `toMap`, `toString`, `toStringList` and `toInt`.
  A missing text field reads as empty.
- `qWarning` logging is not modelled.
- Resources allocated before a record is rejected are not modelled. This
  covers the atlas and skeleton binary that the source leaks when a
  record fails late.
- Destructor disposal is not modelled.
- `spine_qt_bridge.cpp` and `main.cpp` are not part of this model.
- Qt's threading and scheduling are not modelled: `update()`, `tick()`,
  and when `synchronize` and `render` run.
- `SpineViewport::units()` is a plain read of the field.
- The null checks at `spinerenderer.cpp:339` (`finalXY`, `finalUV`,
  `finalIdx`) are subsumed by the buffers being sequences.
- The check at `spinerenderer.cpp:359` (`tex` null) is unreachable after
  the test at line 300, and the model has no separate branch for it.
- The skeleton subset types carry the engine's shape guarantees: a region
  has 8 floats of positions and UVs, and a mesh has as many UV floats as
  position floats. The `Geometry` subset type also binds the
  `clipTriangles` oracle to one UV pair per position pair, as spine-c's
  clipper grows its clipped UVs together with its clipped vertices.
