# draw-tools world-state services in Dafny

draw-tools provides three world-state-store services for a Viam robot. Each one
holds a set of transform records (named, posed frames with optional geometry and
metadata) and streams change events to subscribers.

- **drawarrows** draws arrows described in a DoCommand payload or in its
  configuration.
- **drawmesh** loads a PLY mesh from a file and stores it as one transform.
- **as_arrows** is the motion-plan-as-arrows service. It validates and defaults its
  configuration, but drawing a plan is still a stub.

The `lib` package underneath turns loosely typed command payloads (Go `any`) into
strict values: numbers with defaults, clamped RGB colours, seven-field poses, arrow
specifications, and 16-byte UUIDs with their canonical text form.

## The model

Each Go file of the core has its own module:

| module | file | modelled as |
|---|---|---|
| `GoValues` | shared | a tagged `Value` for payloads, keeping each number's Go kind |
| `Text` | shared | `%d` and `%x`, each with its decoder |
| `Errors` | shared | the error texts of the lib package and the three stores, built as `fmt.Errorf` builds them; errors from code outside the core carry their text as given |
| `LibNumeric` | lib/lib.go | functions |
| `LibFloat` | lib/float.go | functions |
| `LibColor` | lib/color.go | functions |
| `LibPose` | lib/pose.go | functions |
| `LibUUID` | lib/uuid.go | functions |
| `LibArrow` | lib/arrow.go | a function for `ParseArrow`, loop methods for `ParseArrows` and `CreateArrowTransforms` |
| `WorldState` | shared | transform records, change events, the bounded queue |
| `TransformStore` | shared | the map keyed by `id.String()`, used by drawarrows and drawmesh |
| `DrawArrows` | drawarrows/module.go | a class |
| `DrawMesh` | drawmesh/module.go | a class |
| `AsArrows` | as_arrows/module.go | functions for configuration, a class for the store |
| `AsArrowsArrow` | as_arrows/arrow.go | a function for `parseArrow`, loop methods for `parseArrows` and `drawArrows` |

**Services.** Each service is a class with two fields: `transforms` (the map) and
`changeStream` (the queue, oldest event first).

- `Valid()` says that the queue never holds more than 100 events.
- For drawarrows and drawmesh, `Valid()` also says that every record sits under the
  text form of its own 16-byte identity. That invariant matters twice:
  - `clear` parses each key back into the bytes it puts in its REMOVED event, and
    the round trip `Parse(String(u)) == u` proves those bytes are the record's
    identity;
  - the error branches for UUID conversion in `draw`, `clear` and `ListUUIDs`
    cannot be taken.

**Map iteration.** Go visits map keys in no fixed order. `clear`, `clearAllArrows`
and `ListUUIDs` therefore return a ghost `order`, which is the order they visited
the keys in. Their contracts hold for every such order.

**UUIDs.** Identities are 16-byte sequences. `String` is the 8-4-4-4-12 lower-case
hexadecimal form of section 4 of RFC 9562. `GenerateUUID` sets the version-4 and
variant bits of section 5.4 of RFC 9562 on random bytes, which are passed in.

## Model

| member | source | states |
|---|---|---|
| `LibNumeric.ParseInt` | lib/lib.go:59-104 | nil and non-numeric input give the default; every integer kind gives its value; floats truncate toward zero |
| `LibNumeric.ParseFloat` | lib/lib.go:8-53 | nil and non-numeric input give the default; every numeric kind gives its real value |
| `LibFloat.GetFloat64` | lib/float.go:3-18 | float64 is returned, int and int64 are converted exactly, nil and every other kind (float32, int32, uint included) give the default |
| `LibFloat.GetFloat64IgnoresDefault` | lib/float.go:8-15 | on float64/int/int64 the result does not depend on the default |
| `LibFloat.GetFloat64RefinesParseFloat` | lib/float.go:3-18 | equals `parseFloat` on the accepted kinds and is the default on every other input |
| `LibColor.Clamp` | lib/color.go:32-36 | below 0 gives 0, above 255 gives 255, in range is unchanged |
| `LibColor.Channel` | lib/color.go:31 | a missing, nil or non-numeric channel takes the default's channel; a number is clamped |
| `LibColor.ParseColor` | lib/color.go:21-57 | non-map input (untyped nil included) gives the default and an error; a nil map gives the default and no error; otherwise each channel is read on its own, with no error |
| `LibColor.ParseColorEmptyMap` | lib/color.go:27-56 | an empty map gives the default colour with no error |
| `LibColor.ParseColorKeepsInRange` | lib/color.go:52-56 | in-range integer channels of any kind are kept exactly |
| `LibColor.ParseColorClampsExample` | lib/color.go:31-50 | {300, -50, 128} becomes {255, 0, 128} |
| `LibPose.ParsePose` | lib/pose.go:10-31 | non-map input fails with "expected pose object, got %T"; a map never fails; each of the seven fields is `GetFloat64` of its own key with default 0 |
| `LibPose.ParsePosePartialExample` | lib/pose.go:16-23 | absent fields are 0 |
| `LibUUID.Bytes` | lib/uuid.go:21-23 | exactly 16 bytes, the identity's own |
| `LibUUID.String` | lib/uuid.go:15-17 | 36 characters |
| `LibUUID.StringIsCanonical` | lib/uuid.go:13-17 | `String` gives hyphens at 8, 13, 18 and 23 and lower-case hex elsewhere |
| `LibUUID.Parse` | lib/uuid.go:68-71 | a length other than 36 is "invalid UUID length: n"; any other failure is "invalid UUID format"; succeeds iff the hyphens sit at 8, 13, 18 and 23 and every other character is a hex digit of either case; byte i is then the value of digits 2i and 2i+1; a canonical string parses to the bytes its digits spell |
| `LibUUID.StringBytes` | drawarrows/module.go:130 | the text form is pure ASCII, so Go's bytes of it are one per character, each below 128 |
| `LibUUID.StringBytesReadBack` | drawarrows/module.go:130 | read back as characters, those bytes parse to the identity |
| `LibUUID.ParseOfString` | lib/uuid.go:15-17 | `Parse(String(u)) == u` |
| `LibUUID.StringOfParse` | lib/uuid.go:68-75 | a canonical string is the `String` of what it parses to |
| `LibUUID.StringInjective` | lib/uuid.go:15-17 | distinct identities have distinct text forms |
| `LibUUID.GenerateUUID` | lib/uuid.go:29-34 | version nibble 4, variant bits 10, every other bit from the random input |
| `LibUUID.UUIDFromBytes` | lib/uuid.go:43-52 | succeeds exactly on 16 bytes, and then `Bytes()` is the input; otherwise "invalid UUID (got n bytes)" |
| `LibUUID.UUIDFromString` | lib/uuid.go:62-76 | "" gives a freshly generated identity; any other string gives exactly `Parse`'s result, error included; a canonical string gives the identity whose `String` it is |
| `LibUUID.RejectsInvalidFormat` | lib/uuid.go:68-71 | "invalid-uuid-format" is rejected |
| `LibUUID.RejectsNonHexDigit` | lib/uuid.go:68-71 | a 36-character string with its hyphens in place and a non-hex digit fails with "invalid UUID format" |
| `LibUUID.ParseAcceptsUpperCase` | lib/uuid.go:68-71 | the upper-case text form of an identity parses to that identity |
| `LibUUID.UUIDFromStringOfString` | lib/uuid.go:62-76 | `UUIDFromString(u.String()) == u` |
| `LibArrow.ParseArrow` | lib/arrow.go:89-131 | checks fire in order: not a map, no pose, bad pose, non-string parent_frame, bad colour; succeeds iff none fires; parent_frame defaults to "world" and colour to (255,255,0); the identity is empty |
| `LibArrow.ParseArrows` | lib/arrow.go:72-87 | a non-array fails with "Expected array of arrows"; on success element i is `ParseArrow(input[i])`, with the same length; the first failing index aborts with that index and no list |
| `LibArrow.ArrowTransform` | lib/arrow.go:36-64 | an empty identity gives a fresh one; a non-empty one is parsed and its error returned; the frame is "arrow-" plus the hex of the 16 bytes; pose and parent frame copied; metadata {shape "arrow", colour} |
| `LibArrow.CreateArrowTransforms` | lib/arrow.go:20-70 | succeeds iff every arrow builds; then one transform per arrow, in order; otherwise the first failing arrow's error and no partial list |
| `LibArrow.ParsedArrowsBuild` | lib/arrow.go:114-117 | arrows produced by `ParseArrow` always build, each with a generated identity |
| `LibArrow.ArrowFrameNamesIdentify` | lib/arrow.go:49 | two built arrows share a frame name only if they share an identity |
| `WorldState.EmitAllKeepsWhatFits` | drawarrows/module.go:206-213 | a run of non-blocking sends keeps the queued events, appends as many new ones in order as fit under 100, drops the rest |
| `WorldState.EnumerationDone` | drawarrows/module.go:248 | a finished map range has visited each key exactly once |
| `TransformStore.UpdateAllKeys` | drawarrows/module.go:225-238 | after storing a batch, the keys are the old keys and the batch's; an untouched key keeps its record |
| `TransformStore.UpsertStoresLast` | drawarrows/module.go:233 | the last record of a batch with a given identity is the one stored for it |
| `TransformStore.UpsertKeyedByIdentity` | drawarrows/module.go:227-233 | storing a batch under `id.String()` keeps every record under its own identity's text form |
| `TransformStore.ParseKey` | drawarrows/module.go:249-258 | re-parsing a key of the store succeeds and gives that record's identity |
| `TransformStore.Find` | drawarrows/module.go:118-134 | a non-16-byte id fails with the byte count; otherwise it succeeds iff a record has that identity and returns that record; when none has, the error is `UUIDNotFound` of that identity |
| `Errors.UUIDNotFoundMessage` | drawarrows/module.go:128-131 | the not-found text is the 30-character prefix and then 72 hex digits, the `%x` of the identity's 36-character `String`, which decode back to its bytes |
| `TransformStore.FindAfterUpsert` | drawarrows/module.go:118-134 | after a draw, each drawn identity finds the last record drawn with it |
| `TransformStore.FindAfterUpsertElsewhere` | drawarrows/module.go:118-134 | a draw does not change the lookup of an identity it does not carry |
| `TransformStore.FindAfterStore` | drawmesh/module.go:206 | after one insertion, its identity finds the record |
| `TransformStore.FindInEmpty` | drawarrows/module.go:129-131 | an empty store answers `UUIDNotFound` for every 16-byte id |
| `DrawArrows.WorldStateService.constructor` | drawarrows/module.go:70-95 | an empty store into which each configured arrow is drawn on its own; arrows that fail are skipped |
| `DrawArrows.WorldStateService.EmitChange` | drawarrows/module.go:206-213 | appends when fewer than 100 events are queued, otherwise drops the event; the map is untouched |
| `DrawArrows.WorldStateService.Draw` | drawarrows/module.go:215-241 | if building fails, nothing changes and the first failure is the error; otherwise each record is upserted under `id.String()` in order, one ADDED event per record is queued, and the count is the batch length |
| `DrawArrows.WorldStateService.Clear` | drawarrows/module.go:243-265 | returns the prior count, queues one REMOVED event per key carrying that record's identity, empties the map; an empty store gives 0 and no events |
| `DrawArrows.WorldStateService.GetTransform` | drawarrows/module.go:118-134 | the answer is `Find` on the store |
| `DrawArrows.WorldStateService.ListUUIDs` | drawarrows/module.go:101-116 | one 16-byte identity per stored record, no two alike, store unchanged |
| `DrawArrows.WorldStateService.UpdateArrowColor` | drawarrows/module.go:267-300 | an unknown key changes nothing; a known key has only its metadata replaced and queues an UPDATED event with just uuid and metadata, updated fields ["metadata"] |
| `DrawArrows.WorldStateService.DoCommand` | drawarrows/module.go:157-197 | "draw" before "clear"; a parse failure gives {success: false, error} with the store unchanged; a draw adds every parsed arrow and replies with the count; "clear" replies with arrows_removed; anything else is "Unknown command" |
| `DrawArrows.DrawnArrowsAreFound` | drawarrows/module.go:118-134 | after drawing parsed arrows, each arrow whose generated identity no later arrow of the batch shares is found under it (otherwise the later record wins, as `TransformStore.FindAfterUpsert` states) |
| `DrawMesh.MeshTransform` | drawmesh/module.go:184-201 | frame exactly "mesh-" plus the identity's lower-case text form (41 characters, whose suffix parses back to the identity), parent "world", pose (0,0,0, 0,0,1, 0), the loaded geometry, metadata holding only the colour |
| `DrawMesh.WorldStateService.constructor` | drawmesh/module.go:72-91 | an empty store and queue |
| `DrawMesh.WorldStateService.EmitChange` | drawmesh/module.go:265-272 | appends when fewer than 100 events are queued, otherwise drops |
| `DrawMesh.WorldStateService.Draw` | drawmesh/module.go:153-214 | a failed open or load returns its error with the store unchanged; otherwise one record under the generated identity's text form and one ADDED event |
| `DrawMesh.WorldStateService.Clear` | drawmesh/module.go:274-296 | returns the prior count, queues one REMOVED event per record carrying its identity, empties the map |
| `DrawMesh.WorldStateService.GetTransform` | drawmesh/module.go:114-130 | the answer is `Find` on the store |
| `DrawMesh.WorldStateService.ListUUIDs` | drawmesh/module.go:97-112 | one 16-byte identity per stored record, no two alike |
| `DrawMesh.WorldStateService.DoCommand` | drawmesh/module.go:216-256 | colour parsed with default (0,0,255); a colour, open or load error gives {success: false} with the store untouched; success adds one mesh; "clear" replies with mesh_removed; anything else is "Unknown command" |
| `DrawMesh.DrawWithoutColorRejected` | drawmesh/module.go:219-220 | a draw without "color" is rejected, since `ParseColor(nil)` errors |
| `DrawMesh.DrawnMeshIsFound` | drawmesh/module.go:206 | after a draw the mesh is found under its identity |
| `AsArrows.Validate` | as_arrows/module.go:41-51 | empty motion_service is rejected first; then a rate <= 16.6667 (the minimum itself included); on success the only dependency is the motion service |
| `AsArrows.ValidateRejectsMinimumRate` | as_arrows/module.go:22 | exactly 16.6667 is rejected |
| `AsArrows.Resolve` | as_arrows/module.go:94-139 | the motion service must be available; colour defaults to black and parent frame to "world"; a worker runs iff a rate is set |
| `AsArrows.MotionPlanRequest` | as_arrows/module.go:197-204 | component_name and execution_id are taken when they are strings, "" otherwise |
| `AsArrows.AsArrowsService.constructor` | as_arrows/module.go:121-132 | resolved settings, empty store and queue |
| `AsArrows.AsArrowsService.EmitChange` | as_arrows/module.go:278-285 | appends when fewer than 100 events are queued, otherwise drops |
| `AsArrows.AsArrowsService.GetTransform` | as_arrows/module.go:157-168 | the raw bytes are the key; absent means "not found" with the `%x` of those raw bytes |
| `AsArrows.AsArrowsService.ListUUIDs` | as_arrows/module.go:145-155 | one stored 16-byte identity per record: the list is as long as the store, each entry is some record's identity, and every record's identity is listed |
| `AsArrows.AsArrowsService.DrawMotionPlan` | as_arrows/module.go:287-298 | draws nothing, reports 0 |
| `AsArrows.AsArrowsService.ClearAllArrows` | as_arrows/module.go:300-316 | returns the prior count, one REMOVED event per key carrying the key's raw bytes, map empty afterwards |
| `AsArrows.AsArrowsService.DoCommand` | as_arrows/module.go:192-236 | "draw_motion_plan" succeeds with arrows_added 0 and no change; "clear_arrows" replies with arrows_removed; anything else is "unknown command" |
| `AsArrowsArrow.ParsePlanArrow` | as_arrows/arrow.go:67-105 | not a map, then no pose, then a bad pose, then a bad colour; an absent colour is black; a parent_frame that is absent or not a string is "world" |
| `AsArrowsArrow.ParentFrameNeverRejects` | as_arrows/arrow.go:93-98 | no value of parent_frame changes whether the parse succeeds, or its pose and colour |
| `AsArrowsArrow.ParsePlanArrows` | as_arrows/arrow.go:49-65 | a non-array fails with "expected array of arrows"; element i is `parseArrow(input[i])`; the first failing index aborts with no list |
| `AsArrowsArrow.PlanTransform` | as_arrows/arrow.go:31-41 | frame exactly "arrow-" plus `%d` of the index (no leading zeros), which reads back as the index; pose and parent frame copied; the fresh identity; arrow metadata |
| `Text.NatToString` | as_arrows/arrow.go:33 | `%d` of a natural: at least one decimal digit, and a leading '0' only for 0 itself |
| `AsArrowsArrow.DrawPlanArrows` | as_arrows/arrow.go:12-47 | one transform per arrow in order, the i-th named "arrow-i" with fresh identity i |
| `AsArrowsArrow.PlanFramesDistinct` | as_arrows/arrow.go:33 | arrows at different positions get different frame names |

## Left out

- Concurrency is not modelled: the `sync.RWMutex`, the `StreamTransformChanges` forwarding goroutines, context cancellation and `Close`. Each locked method is one atomic step, and the queue is a single shared sequence with no per-subscriber fan-out.
- The as_arrows background worker (`startBackgroundWorker`, `updateMotionPlanArrows`) is left out. It is time-driven and does nothing yet; `Resolve` only records whether it would run.
- Records are stored as values, not pointers. In the source, a queued ADDED event and the stored record share one pointer, so `updateArrowColor` also changes the metadata inside events still queued. The model does not capture that aliasing.
- `DrawArrows.WorldStateService.UpdateArrowColor` takes no lock in the source and is never called anywhere in the repository; it is modelled as if it ran atomically.
- UUID randomness and the random source are parameters. `random: nat -> UUID` supplies the raw bytes for arrow i of a batch; the constructor draws configured arrow i with `random(i)`. drawmesh takes one `random: UUID`. as_arrows takes `newId: nat -> UUID`.
- `LibUUID.Parse` handles only the 36-character form. The other forms `uuid.Parse` accepts (32 digits, braces, urn: prefix) are not modelled, and for them the model reports an error.
- Strings are sequences of characters, and the model's lengths count characters. Go's `len` counts UTF-8 bytes, so for a non-ASCII string `uuid.Parse` can report a length error (with its byte count) where the model reports "invalid UUID format", and `%x` of non-ASCII text is not modelled.
- Integer widths and float rounding are not modelled: overflow and wrap-around in `parseInt`'s `T(...)` conversions, float32 rounding, NaN and infinities. Numbers are mathematical integers and reals, and `MinUpdateRateHz` is the exact real 16.6667.
- `structpb.NewStruct` is a plain record. Its error path cannot be reached for these string and int maps, so neither `CreateArrowTransforms` nor `drawArrows` returns that error.
- Poses are seven plain numbers. `spatialmath` pose construction, normalisation and `PoseToProtobuf` are treated as the identity. `Arrow.Pose`'s type is not part of this model.
- File opening and the PLY loader are parameters (`openFile`, `load`); mesh geometry is opaque.
- `DrawMesh.WorldStateService.DoCommand`: the source panics unless "draw" holds a map whose "model_path" is a string. That is a precondition here, not a modelled panic.
- The `ParsePose`/`ParseColor` of the `drawmotionplan/lib` package used by as_arrows/arrow.go are not part of this model. They are function parameters, and their error texts appear as given.
- `NewAsArrows`: the `motion.FromDependencies` lookup is a set of available names. The framework's error is the text `depError`, and `%q` is rendered as plain quotes without escaping.
- Error paths the invariant rules out are not modelled as branches, since they cannot be taken:
  - `uuid.FromBytes` failing in `draw` and `ListUUIDs`, or `uuid.Parse` failing in `clear`, would need a record that is not keyed by its own 16-byte identity;
  - `draw` failing after a successful parse in drawarrows' `DoCommand` would need an identity, and parsed arrows never carry one (`LibArrow.ParsedArrowsBuild`).
- drawarrows/module.go:216 calls `lib.DrawArrows`, which does not exist in lib/; it is taken to be `CreateArrowTransforms`.
- lib/arrow.go:38 assigns a `UUID` struct to a `[]byte`; it is taken to be `GenerateUUID().Bytes()`.
- The `Config.Validate` of drawarrows and drawmesh is not modelled; it accepts every configuration and declares no dependencies.
- Logging, `Name()`, framework registration (`init`), the button components, the root stubs and the command-line bootstrap are framework glue with nothing to state.
- `AsArrows.Validate` follows the code, which rejects a rate equal to the minimum even though its message asks for "greater than or equal to"; `ValidateRejectsMinimumRate` records that case.
