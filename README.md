# BiomeCity core, modelled in Dafny

This project models the logic of the BiomeCity Unity project that does not
depend on the engine's rendering or physics:

- **SSU (shader animation).** `SSUAnimator` interpolates a material property
  between two values along a curve. `SSUPlayer` runs a list of animators
  forwards or backwards over repeated plays (OneTime, BackAndForth, Looped)
  and writes their values into a property block. `SSUShaderBase` finds the
  fields of a shader component marked as properties or keywords, resolving
  group prefixes by reflection, and keeps a material in sync with them.
  `SSUShader` is the concrete component whose property names are resolved.
- **Runtime collections.** `RuntimeSet` is a duplicate-free list. `RuntimeMap`
  is an association list of key/value pairs. `RuntimeRegistry` finds the
  configuration for a scene. `RuntimeConfigApplier.MergeConfigs` merges two
  configurations field by field.
- **Timers** from `TimePatterns`: tick/reset accumulators, a frame counter
  and an event timer with a start/stop guard.
- **`HotelDoorController`**, which fades a door's glow towards an end value
  while the player is in range and back again when they leave.
- **`MaterialLibrary`**, a bounds-checked material lookup.
- **`CharacterDamageDashExt`**, which chooses the damage object for a dash
  from its direction.

Each source file is one module (one `.dfy` file). Code that updates fields
step by step (the player, the shader component, the collections, the timers,
the door, the dash) is a class whose methods are proved against pure
specification functions. Lemmas state the properties of those functions.

Engine values are modelled as follows:

- Unity floats are `real`; colours and vectors are `Vec4`.
- Textures and materials are opaque handles, and null is `None`.
- Frame deltas, property ids and coroutine handles are parameters.
- A property block is a map from property name to value.
- Writes to a material are logged in order.

Where the code and its own description disagree, the model follows the code:

- An SSUAnimator texture animation with a null A or B texture is invalid.
- `SSUPlayer.Stop` does not reactivate the animators, and the next play starts from their states as Stop left them.
- `RuntimeRegistry.TryGetConfigForScene` returns true on the default fallback (see Findings).

## Model

| member | source | states |
|---|---|---|
| SSUValues.Clamp01 | Assets/_Game/Scripts/Ameba/SSU/SSUAnimator.cs:131 | the result lies in [0, 1], equals the input inside that range and the nearer bound outside it (Mathf.Clamp01) |
| SSUValues.Lerp | Assets/_Game/Scripts/Ameba/SSU/SSUAnimator.cs:60-69 | the clamped interpolation gives a at t <= 0, b at t >= 1, and otherwise a value between a and b (Mathf.Lerp) |
| SSUValues.Lerp4 | Assets/_Game/Scripts/Ameba/SSU/SSUAnimator.cs:60-69 | the component-wise interpolation of colours and vectors gives a at t <= 0 and b at t >= 1 |
| SSUValues.RoundToInt | Assets/_Game/Scripts/Ameba/SSU/SSUAnimator.cs:60-69 | the rounded integer is within one half of the value and is exact on integral values (Mathf.RoundToInt for Int properties) |
| SSUValues.ScaledWithin | Assets/_Game/Scripts/Ameba/SSU/SSUAnimator.cs:60-69 | a fraction u in [0, 1] of a distance d stays between 0 and d, whichever the sign of d; this keeps Lerp inside its endpoints |
| SSUAnimator.GetT | Assets/_Game/Scripts/Ameba/SSU/SSUAnimator.cs:131 | the curve value at time times Speed is clamped, so t is always in [0, 1] |
| SSUAnimator.HasValidValues | Assets/_Game/Scripts/Ameba/SSU/SSUAnimator.cs:99-126 | the configuration check; ValidValuesByKind states it kind by kind |
| SSUAnimator.Interpolate | Assets/_Game/Scripts/Ameba/SSU/SSUAnimator.cs:60-69 | the built-in evaluation per property type; InterpolateEndpoints, IntEvaluationRounds and TextureHardSwitch state its properties |
| SSUAnimator.EvaluateAt | Assets/_Game/Scripts/Ameba/SSU/SSUAnimator.cs:60-69 | evaluation succeeds exactly when the values are valid, otherwise it is the invalid-configuration error; the boxed result has the property type's kind, and a texture is A below t = 0.5 and B from there on |
| SSUAnimator.ValidValuesByKind | Assets/_Game/Scripts/Ameba/SSU/SSUAnimator.cs:99-126 | per property type, the values are valid exactly when A differs from B; for textures both must also be non-null |
| SSUAnimator.InterpolateEndpoints | Assets/_Game/Scripts/Ameba/SSU/SSUAnimator.cs:60-69 | at t = 0 the evaluation is the A value and at t = 1 the B value, for every interpolated type |
| SSUAnimator.IntEvaluationRounds | Assets/_Game/Scripts/Ameba/SSU/SSUAnimator.cs:60-69 | an Int animation yields the interpolated value rounded to within one half |
| SSUAnimator.TextureHardSwitch | Assets/_Game/Scripts/Ameba/SSU/SSUAnimator.cs:60-69 | a texture animation switches from A to B at t = 0.5 with no blending |
| SSUAnimator.SlowAnimatorNeverCompletes | Assets/_Game/Scripts/Ameba/SSU/SSUAnimator.cs:44-47 | with Speed 0.5 and an identity curve, t reaches 1 only from time 2, and evaluating at the previous t (as the player does) never reaches 1 |
| SSUAnimator.Animator.constructor | Assets/_Game/Scripts/Ameba/SSU/SSUAnimator.cs:44-47 | a new animator is active with its current time at zero |
| SSUAnimator.Animator.Progress | Assets/_Game/Scripts/Ameba/SSU/SSUAnimator.cs:44 | progress is the current time as a percentage and stays in [0, 100] |
| SSUAnimator.Animator.IsComplete | Assets/_Game/Scripts/Ameba/SSU/SSUAnimator.cs:46 | complete when the curve at the stored time times Speed reaches 1; SlowAnimatorNeverCompletes shows the effect of applying the curve twice |
| SSUAnimator.Animator.IsDisabled | Assets/_Game/Scripts/Ameba/SSU/SSUAnimator.cs:47 | the negation of Active; SetDisabled states the setter |
| SSUAnimator.Animator.SetDisabled | Assets/_Game/Scripts/Ameba/SSU/SSUAnimator.cs:47 | IsDisabled is the negation of Active, and setting it sets Active to the opposite |
| SSUAnimator.Animator.EvaluateWith | Assets/_Game/Scripts/Ameba/SSU/SSUAnimator.cs:79-93 | a missing callback is an error; invalid values are an error and leave the current time unchanged; otherwise the current time becomes t and the callback's outcome (value or exception) is returned |
| SSUAnimator.Animator.Evaluate | Assets/_Game/Scripts/Ameba/SSU/SSUAnimator.cs:60-69 | the result is the pure evaluation; the current time becomes t exactly when the values are valid, so Progress stays within [0, 100] |
| SSUPlayer.StepState | Assets/_Game/Scripts/Ameba/SSU/SSUPlayer.cs:102-105 | one visit of an active animator evaluates it when it is not yet complete, and it stays active exactly while its new time is below completion |
| SSUPlayer.ExecWrite | Assets/_Game/Scripts/Ameba/SSU/SSUPlayer.cs:125-160 | the block entry ExecuteAnimator writes: the evaluated value when the animator has a name, is active, not complete and valid; ApplyWritesKeys and ApplyWritesLastWins state what reaches the block |
| SSUPlayer.WriteInto | Assets/_Game/Scripts/Ameba/SSU/SSUPlayer.cs:125-160 | the block after ExecuteAnimator; Player.ExecuteAnimator is proved against it |
| SSUPlayer.CanPlayFor | Assets/_Game/Scripts/Ameba/SSU/SSUPlayer.cs:162-171 | CanPlay by play mode; CyclesExhaust, ForeverNeverStops, LoopedCount and OneTimePlaysOnce state its consequences |
| SSUPlayer.InitialPlaysLeft | Assets/_Game/Scripts/Ameba/SSU/SSUPlayer.cs:58-65 | the plays left Init sets; LoopedCount and OneTimePlaysOnce start from it |
| SSUPlayer.CycleEnd | Assets/_Game/Scripts/Ameba/SSU/SSUPlayer.cs:111-115 | the plays left and direction at the end of a cycle; BackAndForthCycles and CyclesExhaust state its effect over many cycles |
| SSUPlayer.EndOfIteration | Assets/_Game/Scripts/Ameba/SSU/SSUPlayer.cs:110-117 | the end of an iteration: a cycle ends exactly when every animator is inactive; Player.EndIteration is proved against it |
| SSUPlayer.ApplyWrites | Assets/_Game/Scripts/Ameba/SSU/SSUPlayer.cs:98-107 | the block an iteration builds; ApplyWritesKeys and ApplyWritesLastWins state its keys and values, and Player.EvaluateAnimators is proved against it |
| SSUPlayer.Order | Assets/_Game/Scripts/Ameba/SSU/SSUPlayer.cs:173-176 | the visiting order has one entry per animator, each a valid position |
| SSUPlayer.OrderVisitsEachOnce | Assets/_Game/Scripts/Ameba/SSU/SSUPlayer.cs:173-176 | the order visits every animator exactly once, and the reverse order is the forward order read backwards |
| SSUPlayer.TickStates | Assets/_Game/Scripts/Ameba/SSU/SSUPlayer.cs:100-105 | after a pass every active animator has taken one step and every inactive one is unchanged |
| SSUPlayer.Reactivated | Assets/_Game/Scripts/Ameba/SSU/SSUPlayer.cs:180 | ResetAnimators makes every animator active and keeps its current time |
| SSUPlayer.ApplyWritesKeys | Assets/_Game/Scripts/Ameba/SSU/SSUPlayer.cs:98-107 | every property in the block after a pass was written by an active, evaluated animator with that property name |
| SSUPlayer.ApplyWritesLastWins | Assets/_Game/Scripts/Ameba/SSU/SSUPlayer.cs:98-107 | the converse: every animator active at the tick start that writes has its property in the block, and the block holds the value of the last such animator in visiting order, since a later write overwrites |
| SSUPlayer.ApplyWritesWriter | Assets/_Game/Scripts/Ameba/SSU/SSUPlayer.cs:98-107 | one writing animator's property is in the block, with its value unless a later animator writes the same property |
| SSUPlayer.InvalidAnimatorBlocksCycle | Assets/_Game/Scripts/Ameba/SSU/SSUPlayer.cs:110 | an active animator with invalid values is never evaluated, never completes and keeps the iteration from ending |
| SSUPlayer.SlowAnimatorStaysActive | Assets/_Game/Scripts/Ameba/SSU/SSUPlayer.cs:104 | an animator whose t cannot reach 1 stays active after the pass, so the cycle never ends |
| SSUPlayer.BackAndForthCycles | Assets/_Game/Scripts/Ameba/SSU/SSUPlayer.cs:111-115 | in BackAndForth mode each completed cycle consumes one play and flips the direction |
| SSUPlayer.CyclesExhaust | Assets/_Game/Scripts/Ameba/SSU/SSUPlayer.cs:111-115 | outside Looped mode the plays count down to zero, after which the player cannot play |
| SSUPlayer.ForeverNeverStops | Assets/_Game/Scripts/Ameba/SSU/SSUPlayer.cs:110-171 | with PlayForever (outside OneTime) cycles consume nothing and the player can always play |
| SSUPlayer.LoopedCount | Assets/_Game/Scripts/Ameba/SSU/SSUPlayer.cs:162-171 | Looped mode without PlayForever plays only when the play count is negative, and then forever |
| SSUPlayer.OneTimePlaysOnce | Assets/_Game/Scripts/Ameba/SSU/SSUPlayer.cs:162-171 | OneTime mode plays one cycle and then stops; with PlayForever it never plays |
| SSUPlayer.LoopIteration | Assets/_Game/Scripts/Ameba/SSU/SSUPlayer.cs:97-121 | one iteration of the play loop, as a state transition: stop when CanPlay fails, else rebuild and commit the block and end the cycle as EndOfIteration says; the state keeps one animator state per animator |
| SSUPlayer.ResumeStep | Assets/_Game/Scripts/Ameba/SSU/SSUPlayer.cs:94-122 | the coroutine's step in one frame: waits count down, an expired initial delay runs an iteration in the same frame, an expired pause resumes in the next; the state keeps one animator state per animator |
| SSUPlayer.ResumeStepInvariants | Assets/_Game/Scripts/Ameba/SSU/SSUPlayer.cs:94-122 | a coroutine step keeps IsPlaying true exactly while the coroutine runs, commits at most once and then the block just built, and never raises the plays left of a finite player |
| SSUPlayer.OneTimeEndsAfterItsCycle | Assets/_Game/Scripts/Ameba/SSU/SSUPlayer.cs:108-121 | a OneTime player whose cycle completes pauses with no plays left, resumes after the pause and then ends without committing |
| SSUPlayer.Player.Cfgs | Assets/_Game/Scripts/Ameba/SSU/SSUPlayer.cs:94-122 | the configurations of the animators, position by position |
| SSUPlayer.Player.States | Assets/_Game/Scripts/Ameba/SSU/SSUPlayer.cs:94-122 | the active flags and current times of the animators, position by position |
| SSUPlayer.Player.CanPlay | Assets/_Game/Scripts/Ameba/SSU/SSUPlayer.cs:162-171 | CanPlayFor with the player's mode, forever flag and plays left |
| SSUPlayer.Player.AllAnimatorsInactive | Assets/_Game/Scripts/Ameba/SSU/SSUPlayer.cs:178 | no animator is active |
| SSUPlayer.Player.Cycle | Assets/_Game/Scripts/Ameba/SSU/SSUPlayer.cs:110-117 | the animator states, plays left and direction an iteration ends on |
| SSUPlayer.Player.LoopStateOf | Assets/_Game/Scripts/Ameba/SSU/SSUPlayer.cs:94-122 | the part of the player the coroutine reads and changes; Resume, PlayLoopIteration and Frame are proved against it |
| SSUPlayer.Player.constructor | Assets/_Game/Scripts/Ameba/SSU/SSUPlayer.cs:58-65 | a new player keeps its settings and starts idle with an empty block |
| SSUPlayer.Player.Init | Assets/_Game/Scripts/Ameba/SSU/SSUPlayer.cs:58-65 | the plays left are computed from the mode, the forever flag and the number of plays |
| SSUPlayer.Player.Play | Assets/_Game/Scripts/Ameba/SSU/SSUPlayer.cs:71-77 | a player already playing is unchanged; otherwise it starts exactly when CanPlay, with the initial delay pending |
| SSUPlayer.Player.OnEnable | Assets/_Game/Scripts/Ameba/SSU/SSUPlayer.cs:67 | with the OnEnable start mode it acts as Play: a player already playing keeps its phase, otherwise it starts exactly when CanPlay, with the initial delay pending, and stays idle when not; any other start mode changes nothing |
| SSUPlayer.Player.Start | Assets/_Game/Scripts/Ameba/SSU/SSUPlayer.cs:69 | with the OnStart start mode it acts as Play: a player already playing keeps its phase, otherwise it starts exactly when CanPlay, with the initial delay pending, and stays idle when not; any other start mode changes nothing |
| SSUPlayer.Player.Stop | Assets/_Game/Scripts/Ameba/SSU/SSUPlayer.cs:79-87 | a playing player stops, clears the block, commits it once and resets the play time; without a renderer the commit throws (NullRenderer) after the block was cleared, so nothing is committed and the play time is kept; a stopped player is unchanged |
| SSUPlayer.Player.Update | Assets/_Game/Scripts/Ameba/SSU/SSUPlayer.cs:89-92 | the play time grows by the delta exactly when a renderer is present and the player is playing and can play |
| SSUPlayer.Player.ResetAnimators | Assets/_Game/Scripts/Ameba/SSU/SSUPlayer.cs:180 | the new animator states are the old ones reactivated |
| SSUPlayer.Player.ExecuteAnimator | Assets/_Game/Scripts/Ameba/SSU/SSUPlayer.cs:125-160 | the animator's time and the block change as one pure step of that animator says |
| SSUPlayer.Player.VisitAnimator | Assets/_Game/Scripts/Ameba/SSU/SSUPlayer.cs:102-105 | the state of a visited animator becomes StepState of its old state, and the block changes as WriteInto says |
| SSUPlayer.Player.EvaluateAnimators | Assets/_Game/Scripts/Ameba/SSU/SSUPlayer.cs:98-105 | the block is the writes of the active animators in visiting order, and the states are one pass of TickStates |
| SSUPlayer.Player.PassStep | Assets/_Game/Scripts/Ameba/SSU/SSUPlayer.cs:98-105 | step j of the pass extends the block and the states by the j-th animator in pass order |
| SSUPlayer.Player.VisitAt | Assets/_Game/Scripts/Ameba/SSU/SSUPlayer.cs:102-105 | the visit of the k-th animator changes only its state, to StepState, and the block as WriteInto says |
| SSUPlayer.Player.EndIteration | Assets/_Game/Scripts/Ameba/SSU/SSUPlayer.cs:110-117 | the plays left and direction follow EndOfIteration, with the between-plays delay pending exactly when every animator finished |
| SSUPlayer.Player.PlayLoopIteration | Assets/_Game/Scripts/Ameba/SSU/SSUPlayer.cs:97-121 | the coroutine state afterwards is LoopIteration of the state before: a player that can no longer play stops with nothing else changed; otherwise the block is rebuilt, committed once, the cycle ends as EndOfIteration says, and the coroutine pauses when every animator finished and runs on otherwise |
| SSUPlayer.Player.RunIteration | Assets/_Game/Scripts/Ameba/SSU/SSUPlayer.cs:98-117 | one iteration clears, fills and commits the block, ticks every active animator once and then ends the cycle |
| SSUPlayer.Player.Resume | Assets/_Game/Scripts/Ameba/SSU/SSUPlayer.cs:94-122 | the coroutine state afterwards is ResumeStep of the state before: an idle player does nothing, a wait counts the frame down, an expired initial delay or a running loop runs LoopIteration, and an expired pause resumes next frame |
| SSUPlayer.Player.Frame | Assets/_Game/Scripts/Ameba/SSU/SSUPlayer.cs:89-122 | the play time advances exactly when the player was playing and could play, and the coroutine then takes the ResumeStep at the new play time |
| SSUReflection.ShaderProperties | Assets/_Game/Scripts/Ameba/SSU/SSUShaderBase.cs:196-223 | exactly the reported fields, in field order: property fields, and group fields only once groups are ignored; each is named "_", the prefix of the most recent group field and its shader property name, or with no prefix once IgnoreGroups was seen |
| SSUReflection.ResolveFrom | Assets/_Game/Scripts/Ameba/SSU/SSUShaderBase.cs:196-223 | the walk over the fields threading the prefix and the ignore flag; ResolvedFields, ResolvedInOrder and ResolvedNames state what it reports |
| SSUReflection.LastGroupPrefix | Assets/_Game/Scripts/Ameba/SSU/SSUShaderBase.cs:196-223 | the prefix of the last group field before a position, with no group field after it, or "" when there is none |
| SSUReflection.GroupsIgnoredStep | Assets/_Game/Scripts/Ameba/SSU/SSUShaderBase.cs:212-215 | groups are ignored after a field exactly when they were before it or it is a non-group property with IgnoreGroups |
| SSUReflection.ResolvedFields | Assets/_Game/Scripts/Ameba/SSU/SSUShaderBase.cs:196-223 | every reported property is a field carrying a property attribute |
| SSUReflection.ResolvedInOrder | Assets/_Game/Scripts/Ameba/SSU/SSUShaderBase.cs:196-223 | properties are reported in strictly increasing field order |
| SSUReflection.ResolvedNames | Assets/_Game/Scripts/Ameba/SSU/SSUShaderBase.cs:196-223 | from any field, a walk carrying the right ignore flag and the most recent group prefix names every entry as ExpectedName and reports every reported field |
| SSUReflection.IgnoreGroupsSticky | Assets/_Game/Scripts/Ameba/SSU/SSUShaderBase.cs:196-223 | once IgnoreGroups is seen, every later name carries no group prefix |
| SSUReflection.IgnoredGroupsReportAll | Assets/_Game/Scripts/Ameba/SSU/SSUShaderBase.cs:196-223 | once IgnoreGroups is set, every later property field is reported |
| SSUReflection.GroupFieldsNotReported | Assets/_Game/Scripts/Ameba/SSU/SSUShaderBase.cs:196-223 | while groups apply, fields that only open a group are not reported themselves |
| SSUReflection.Keywords | Assets/_Game/Scripts/Ameba/SSU/SSUShaderBase.cs:225-234 | the reported keywords are exactly the fields with a keyword attribute |
| SSUReflection.KeywordsFrom | Assets/_Game/Scripts/Ameba/SSU/SSUShaderBase.cs:225-234 | the keyword fields from a position on; KeywordsExact states it |
| SSUReflection.KeywordsExact | Assets/_Game/Scripts/Ameba/SSU/SSUShaderBase.cs:225-234 | every keyword field is reported once, in field order, and nothing else |
| SSUReflection.ForEachShaderProperty | Assets/_Game/Scripts/Ameba/SSU/SSUShaderBase.cs:196-223 | the loop over the fields reports exactly ShaderProperties |
| SSUReflection.ForEachKeyword | Assets/_Game/Scripts/Ameba/SSU/SSUShaderBase.cs:225-234 | the loop over the fields reports exactly Keywords |
| SSUReflection.FrozenGroupResolution | Assets/_Game/Scripts/Ameba/SSU/SSUShader.cs:6-54 | the Frozen group yields _FrozenTint and _FrozenContrast before the FrozenSnow group |
| SSUReflection.SnowGroupResolution | Assets/_Game/Scripts/Ameba/SSU/SSUShader.cs:6-54 | the FrozenSnow group yields its three properties before the FrozenHighlight group |
| SSUReflection.HighlightGroupResolution | Assets/_Game/Scripts/Ameba/SSU/SSUShader.cs:6-54 | the FrozenHighlight group yields its seven prefixed properties |
| SSUReflection.SSUShaderResolution | Assets/_Game/Scripts/Ameba/SSU/SSUShader.cs:6-54 | the shader component's twelve material property names, in order |
| SSUShaderBase.MaterialValueOf | Assets/_Game/Scripts/Ameba/SSU/SSUShaderBase.cs:153-190 | each field kind goes to its material setter (bool as 0 or 1, enum as its int, Vector2 padded with zeros); null is an error and an unsupported type writes nothing |
| SSUShaderBase.ReadField | Assets/_Game/Scripts/Ameba/SSU/SSUShaderBase.cs:64-95 | initialisation reads back floats, colours, vectors and non-null textures of the matching kind; other kinds keep their value |
| SSUShaderBase.ReadThenWrite | Assets/_Game/Scripts/Ameba/SSU/SSUShaderBase.cs:64-190 | a value read from the material and written back gives the same material value (a Vector2 loses z and w) |
| SSUShaderBase.SyncProperty | Assets/_Game/Scripts/Ameba/SSU/SSUShaderBase.cs:123-133 | one property visit of ApplyMaterialChanges; SyncPropertyCases and SyncPropertyFrame state it |
| SSUShaderBase.SyncFrom | Assets/_Game/Scripts/Ameba/SSU/SSUShaderBase.cs:123-133 | the property visits in order, stopped by an exception; SyncFromFrame, SyncSettles and SettledSyncIsNoOp state it |
| SSUShaderBase.SyncPropertyCases | Assets/_Game/Scripts/Ameba/SSU/SSUShaderBase.cs:123-133 | a property missing from the material or unchanged since the last sync is skipped; otherwise a null value fails and any other is cached, logged as a change and written when supported |
| SSUShaderBase.SyncPropertyFrame | Assets/_Game/Scripts/Ameba/SSU/SSUShaderBase.cs:123-133 | syncing one property keeps the material's property set and changes only that property's cache entry |
| SSUShaderBase.SyncFromFrame | Assets/_Game/Scripts/Ameba/SSU/SSUShaderBase.cs:123-133 | a sync leaves alone the cache entries of names it does not visit |
| SSUShaderBase.SyncSettles | Assets/_Game/Scripts/Ameba/SSU/SSUShaderBase.cs:123-133 | after a successful sync every present property is cached with its current value |
| SSUShaderBase.SettledSyncIsNoOp | Assets/_Game/Scripts/Ameba/SSU/SSUShaderBase.cs:123-133 | syncing a settled state changes nothing and writes nothing |
| SSUShaderBase.SyncIdempotent | Assets/_Game/Scripts/Ameba/SSU/SSUShaderBase.cs:123-133 | a second sync right after a successful one is a no-op |
| SSUShaderBase.NullNeverCached | Assets/_Game/Scripts/Ameba/SSU/SSUShaderBase.cs:123-183 | a null value is never cached, and a present property whose field is null makes the sync fail |
| SSUShaderBase.KeywordValue | Assets/_Game/Scripts/Ameba/SSU/SSUShaderBase.cs:135-137 | a bool keyword field's own value, otherwise the attribute's initial state |
| SSUShaderBase.SyncKeyword | Assets/_Game/Scripts/Ameba/SSU/SSUShaderBase.cs:135-150 | one keyword visit, with a missing cache entry read as the opposite of the value; KeywordSyncSettles and SettledKeywordSyncIsNoOp state it |
| SSUShaderBase.SyncKeywordsFrom | Assets/_Game/Scripts/Ameba/SSU/SSUShaderBase.cs:135-150 | the keyword visits in order; FirstKeywordSyncWritesAll, KeywordSyncSettles and KeywordSyncIdempotent state it |
| SSUShaderBase.InitKeywordsFrom | Assets/_Game/Scripts/Ameba/SSU/SSUShaderBase.cs:97-114 | InitializeKeywords' visits, setting every keyword without caching; InitWritesEveryKeyword states it |
| SSUShaderBase.SetKeywordIn | Assets/_Game/Scripts/Ameba/SSU/SSUShaderBase.cs:135-150 | enabling adds the keyword and disabling removes it, logging the write |
| SSUShaderBase.InitWritesEveryKeyword | Assets/_Game/Scripts/Ameba/SSU/SSUShaderBase.cs:97-114 | initialisation writes every keyword field's state once, in order |
| SSUShaderBase.FirstKeywordSyncWritesAll | Assets/_Game/Scripts/Ameba/SSU/SSUShaderBase.cs:135-150 | with nothing cached the first keyword sync writes every keyword |
| SSUShaderBase.KeywordSyncSettles | Assets/_Game/Scripts/Ameba/SSU/SSUShaderBase.cs:135-150 | after a keyword sync every keyword is cached with its current state, and other names are untouched |
| SSUShaderBase.SettledKeywordSyncIsNoOp | Assets/_Game/Scripts/Ameba/SSU/SSUShaderBase.cs:135-150 | a keyword sync on a settled cache changes nothing |
| SSUShaderBase.KeywordSyncIdempotent | Assets/_Game/Scripts/Ameba/SSU/SSUShaderBase.cs:135-150 | a second keyword sync right after one is a no-op |
| SSUShaderBase.InitFrom | Assets/_Game/Scripts/Ameba/SSU/SSUShaderBase.cs:64-95 | with each field reported once, a property the material has and whose kind is read lands in its field with the value read; every field no property reads keeps its value |
| SSUShaderBase.InitKeepsKinds | Assets/_Game/Scripts/Ameba/SSU/SSUShaderBase.cs:64-95 | initialisation keeps every field value of its declared kind and never changes bool, int, enum or other fields |
| SSUShaderBase.ApplyChanges | Assets/_Game/Scripts/Ameba/SSU/SSUShaderBase.cs:120-151 | a whole ApplyMaterialChanges: the material keeps its property set, an exception leaves keywords and their cache untouched, and a successful call with distinct names leaves every present property cached with its current value |
| SSUShaderBase.ApplyChangesIdempotent | Assets/_Game/Scripts/Ameba/SSU/SSUShaderBase.cs:120-151 | with distinct property and keyword names, a second call after a successful one with no field change between them changes nothing |
| SSUShaderBase.Material.constructor | Assets/_Game/Scripts/Ameba/SSU/SSUShaderBase.cs:44-47 | a material holds the given properties and keywords with an empty write log |
| SSUShaderBase.ShaderComponent.constructor | Assets/_Game/Scripts/Ameba/SSU/SSUShaderBase.cs:44-47 | a component starts with empty caches and no recorded changes |
| SSUShaderBase.ShaderComponent.InitializeProperties | Assets/_Game/Scripts/Ameba/SSU/SSUShaderBase.cs:64-95 | without a material nothing changes; otherwise the values become InitFrom, so each present, readable property is read into its field and every other field keeps its value |
| SSUShaderBase.ShaderComponent.InitializeKeywords | Assets/_Game/Scripts/Ameba/SSU/SSUShaderBase.cs:97-114 | the keyword state becomes InitKeywordsFrom, and material properties are untouched |
| SSUShaderBase.ShaderComponent.Start | Assets/_Game/Scripts/Ameba/SSU/SSUShaderBase.cs:44-47 | the values become InitFrom of the material, then the keywords are set by InitKeywordsFrom from the new values, with the material's property values untouched; without a material the values are unchanged |
| SSUShaderBase.ShaderComponent.SetMaterialKeyword | Assets/_Game/Scripts/Ameba/SSU/SSUShaderBase.cs:135-150 | the material's keyword set and log change as SetKeywordIn says |
| SSUShaderBase.ShaderComponent.ApplyToMaterial | Assets/_Game/Scripts/Ameba/SSU/SSUShaderBase.cs:153-183 | the material changes as MaterialValueOf says, and a null value is reported as an error |
| SSUShaderBase.ShaderComponent.SyncProperties | Assets/_Game/Scripts/Ameba/SSU/SSUShaderBase.cs:123-133 | the loop ends in the state and error of the pure SyncFrom |
| SSUShaderBase.ShaderComponent.SyncKeywords | Assets/_Game/Scripts/Ameba/SSU/SSUShaderBase.cs:135-150 | the loop ends in the state of the pure SyncKeywordsFrom |
| SSUShaderBase.ShaderComponent.ApplyMaterialChanges | Assets/_Game/Scripts/Ameba/SSU/SSUShaderBase.cs:120-151 | without a material nothing happens; otherwise the material, the caches, the notifications and the error are ApplyChanges of the state before: properties first, keywords only when no property failed |
| SSUShaderBase.ShaderComponent.Update | Assets/_Game/Scripts/Ameba/SSU/SSUShaderBase.cs:49-52 | outside the SyncInUpdate mode nothing changes; in it, without a material nothing changes, and otherwise the material, the caches, the notifications and the error are ApplyChanges of the state before |
| SSUShaderBase.ShaderComponent.LateUpdate | Assets/_Game/Scripts/Ameba/SSU/SSUShaderBase.cs:54-57 | outside the SyncInLateUpdate mode nothing changes; in it, without a material nothing changes, and otherwise the material, the caches, the notifications and the error are ApplyChanges of the state before |
| RuntimeSets.IndexOf | Assets/_Game/Scripts/Ameba/Runtime/RuntimeSet.cs:19 | the position of the first occurrence, with no earlier one |
| RuntimeSets.RemoveFirst | Assets/_Game/Scripts/Ameba/Runtime/RuntimeSet.cs:19 | List.Remove takes out the first occurrence, keeping the rest in order, and changes nothing when the item is absent |
| RuntimeSets.AddKeepsDistinct | Assets/_Game/Scripts/Ameba/Runtime/RuntimeSet.cs:17 | Add keeps the set free of duplicates and its members are the old ones plus the item |
| RuntimeSets.RemoveKeepsDistinct | Assets/_Game/Scripts/Ameba/Runtime/RuntimeSet.cs:19 | Remove keeps the set free of duplicates |
| RuntimeSets.RemoveExactly | Assets/_Game/Scripts/Ameba/Runtime/RuntimeSet.cs:19 | on a duplicate-free list, Remove takes out exactly that item |
| RuntimeSets.AddThenRemove | Assets/_Game/Scripts/Ameba/Runtime/RuntimeSet.cs:17-19 | removing an item just added restores the list |
| RuntimeSets.RuntimeSet.constructor | Assets/_Game/Scripts/Ameba/Runtime/RuntimeSet.cs:9 | a new set is empty |
| RuntimeSets.RuntimeSet.Initialize | Assets/_Game/Scripts/Ameba/Runtime/RuntimeSet.cs:11 | the list is cleared |
| RuntimeSets.RuntimeSet.GetItem | Assets/_Game/Scripts/Ameba/Runtime/RuntimeSet.cs:13 | the item at an index in range, and the indexer's exception otherwise |
| RuntimeSets.RuntimeSet.FirstOrDefault | Assets/_Game/Scripts/Ameba/Runtime/RuntimeSet.cs:15 | the first item, or the default on an empty list |
| RuntimeSets.RuntimeSet.Contains | Assets/_Game/Scripts/Ameba/Runtime/RuntimeSet.cs:21 | true exactly when some position holds the item |
| RuntimeSets.RuntimeSet.Add | Assets/_Game/Scripts/Ameba/Runtime/RuntimeSet.cs:17 | the item is appended unless present, and the list stays duplicate-free |
| RuntimeSets.RuntimeSet.Remove | Assets/_Game/Scripts/Ameba/Runtime/RuntimeSet.cs:19 | the first occurrence is taken out, and afterwards a duplicate-free list no longer contains the item |
| RuntimeMaps.FindKey | Assets/_Game/Scripts/Ameba/Runtime/RuntimeMap.cs:37 | the position of the earliest pair with the key, or none exactly when no pair has it |
| RuntimeMaps.Lookup | Assets/_Game/Scripts/Ameba/Runtime/RuntimeMap.cs:41-44 | a value is found exactly when some pair has the key, and that pair is in the list |
| RuntimeMaps.AddThenLookup | Assets/_Game/Scripts/Ameba/Runtime/RuntimeMap.cs:22-45 | adding keeps keys unique; the key then maps to its old value if present, else to the new value; other keys are unaffected |
| RuntimeMaps.FindKeyPrefix | Assets/_Game/Scripts/Ameba/Runtime/RuntimeMap.cs:22-37 | appending pairs does not change where an existing key is found, and a new key is found where it was appended |
| RuntimeMaps.RemovedKeyAt | Assets/_Game/Scripts/Ameba/Runtime/RuntimeMap.cs:29-35 | removing a present key takes out exactly the pair where it was found |
| RuntimeMaps.RemoveKeepsUnique | Assets/_Game/Scripts/Ameba/Runtime/RuntimeMap.cs:29-35 | removing keeps keys unique and the key is gone afterwards |
| RuntimeMaps.LookupMembership | Assets/_Game/Scripts/Ameba/Runtime/RuntimeMap.cs:37-44 | with unique keys a key maps to a value exactly when that pair is in the list |
| RuntimeMaps.RemoveThenLookup | Assets/_Game/Scripts/Ameba/Runtime/RuntimeMap.cs:29-44 | removing one key leaves the lookups of every other key unchanged |
| RuntimeMaps.UniqueLookup | Assets/_Game/Scripts/Ameba/Runtime/RuntimeMap.cs:37-44 | with unique keys any pair holding the key gives the lookup's value |
| RuntimeMaps.RuntimeMap.constructor | Assets/_Game/Scripts/Ameba/Runtime/RuntimeMap.cs:20 | a new map is empty |
| RuntimeMaps.RuntimeMap.AddKeyValue | Assets/_Game/Scripts/Ameba/Runtime/RuntimeMap.cs:22-27 | the pair is appended unless its key is present, and keys stay unique |
| RuntimeMaps.RuntimeMap.Add | Assets/_Game/Scripts/Ameba/Runtime/RuntimeMap.cs:45 | Add wraps the key and value as a pair and adds it the same way |
| RuntimeMaps.RuntimeMap.FirstOrDefault | Assets/_Game/Scripts/Ameba/Runtime/RuntimeMap.cs:37 | the earliest pair with the key, or none exactly when no pair has it |
| RuntimeMaps.RuntimeMap.Initialize | Assets/_Game/Scripts/Ameba/Runtime/RuntimeMap.cs:39 | the list is cleared |
| RuntimeMaps.RuntimeMap.GetItem | Assets/_Game/Scripts/Ameba/Runtime/RuntimeMap.cs:41-44 | the intended lookup: the value paired with the key, or the default when the key is absent |
| RuntimeMaps.RuntimeMap.Contains | Assets/_Game/Scripts/Ameba/Runtime/RuntimeMap.cs:49 | the intended membership test: true exactly when some pair has the key |
| RuntimeMaps.RuntimeMap.RemoveByKey | Assets/_Game/Scripts/Ameba/Runtime/RuntimeMap.cs:29-35 | reports whether the key was present, removes its pair, and keeps keys unique |
| RuntimeMaps.RuntimeMap.Remove | Assets/_Game/Scripts/Ameba/Runtime/RuntimeMap.cs:47 | removes the key's pair as RemoveByKey does |
| RuntimeMaps.EqualsAsWrittenNeverReturns | Assets/_Game/Scripts/Ameba/Runtime/RuntimeMap.cs:17 | KeyValue.Equals calls itself on the default pair before comparing anything, so no depth of recursion returns |
| RuntimeMaps.GetItemAsWrittenDiverges | Assets/_Game/Scripts/Ameba/Runtime/RuntimeMap.cs:41-44 | GetItem as written never returns, even on an empty map, because it calls that Equals |
| RuntimeMaps.ContainsAsWrittenDiverges | Assets/_Game/Scripts/Ameba/Runtime/RuntimeMap.cs:49 | Contains as written never returns, whether or not the key is present, because it calls that Equals |
| RuntimeRegistries.GetSceneName | Assets/_Game/Scripts/Ameba/Runtime/Registry/RuntimeRegistry.cs:22-23 | the SceneName field's value when it is a string, else null |
| RuntimeRegistries.MatchIndex | Assets/_Game/Scripts/Ameba/Runtime/Registry/RuntimeRegistry.cs:14-15 | the earliest configuration whose scene name equals the argument, none matching before it; none when no configuration matches |
| RuntimeRegistries.GetConfigForScene | Assets/_Game/Scripts/Ameba/Runtime/Registry/RuntimeRegistry.cs:14-15 | the earliest matching configuration, or the default when none matches |
| RuntimeRegistries.TryGetConfigForScene | Assets/_Game/Scripts/Ameba/Runtime/Registry/RuntimeRegistry.cs:17-20 | as written: the out value is GetConfigForScene, and the call returns true exactly when it is the default |
| RuntimeRegistries.TryGetInverted | Assets/_Game/Scripts/Ameba/Runtime/Registry/RuntimeRegistry.cs:17-20 | the default fallback returns true, a found scene configuration returns false, and no match with no default fails |
| RuntimeRegistries.NoSceneFieldNeverMatches | Assets/_Game/Scripts/Ameba/Runtime/Registry/RuntimeRegistry.cs:22-23 | a configuration without a string SceneName never matches a non-null scene name |
| RuntimeRegistries.SceneConfigReportedMissing | Assets/_Game/Scripts/Ameba/Runtime/Registry/RuntimeRegistry.cs:17-20 | a registry holding the configuration of scene Level1 finds it but TryGet returns false |
| RuntimeRegistries.TryGetSceneConfig | Assets/_Game/Scripts/Ameba/Runtime/Registry/RuntimeRegistryInitializer.cs:27-36 | the intended TryGet: true exactly when the configuration found is not the default |
| RuntimeRegistries.TryGetSceneConfigFindsScene | Assets/_Game/Scripts/Ameba/Runtime/Registry/RuntimeRegistryInitializer.cs:27-36 | the intended TryGet returns true exactly when some configuration matches the scene |
| RuntimeConfigApplier.ResolveConfigFieldAttribute | Assets/_Game/Scripts/Ameba/Runtime/Registry/RuntimeConfigApplier.cs:132-146 | the member's own attribute; else one built from the class defaults with the member's name; null exactly when neither exists |
| RuntimeConfigApplier.IsValueOverridable | Assets/_Game/Scripts/Ameba/Runtime/Registry/RuntimeConfigApplier.cs:148-155 | a value counts as unset exactly for an empty string, a null object or reference, any enum, or a value type at its default |
| RuntimeConfigApplier.MergedValue | Assets/_Game/Scripts/Ameba/Runtime/Registry/RuntimeConfigApplier.cs:104-116 | every merged field takes either the base or the override value |
| RuntimeConfigApplier.MergeRule | Assets/_Game/Scripts/Ameba/Runtime/Registry/RuntimeConfigApplier.cs:104-116 | force and AlwaysReplace take the override; ReplaceIfDefault takes it exactly when the base is unset |
| RuntimeConfigApplier.StringAndEnumBases | Assets/_Game/Scripts/Ameba/Runtime/Registry/RuntimeConfigApplier.cs:148-155 | under ReplaceIfDefault a null string base is kept, an empty one replaced, and any enum base replaced |
| RuntimeConfigApplier.MergeConfigs | Assets/_Game/Scripts/Ameba/Runtime/Registry/RuntimeConfigApplier.cs:85-130 | without a public constructor the base is returned; otherwise it succeeds exactly when every field resolves an attribute, fails naming the first field that does not, and on success each field gets its merged value |
| RuntimeConfigApplier.ForcedMergeIsOverride | Assets/_Game/Scripts/Ameba/Runtime/Registry/RuntimeConfigApplier.cs:112-114 | with force every field of the merge takes the override value |
| TimePatterns.TickStep | Assets/_Game/Scripts/Ameba/Reference/TimePatterns.cs:126-133 | a tick fires exactly when elapsed plus delta reaches the threshold; firing resets to exactly zero, otherwise the delta is added; afterwards elapsed is zero or below the threshold |
| TimePatterns.NonPositiveThresholdAlwaysFires | Assets/_Game/Scripts/Ameba/Reference/TimePatterns.cs:126-133 | with a threshold of zero or less, every non-negative tick from a non-negative accumulator fires |
| TimePatterns.AccumulatesUntilFire | Assets/_Game/Scripts/Ameba/Reference/TimePatterns.cs:126-133 | until the first firing tick the accumulator is the start value plus the sum of the deltas |
| TimePatterns.FirstFire | Assets/_Game/Scripts/Ameba/Reference/TimePatterns.cs:126-133 | the first firing tick is the first at which the running total reaches the threshold |
| TimePatterns.FrameStep | Assets/_Game/Scripts/Ameba/Reference/TimePatterns.cs:40-46 | an Update fires exactly when the incremented count reaches the interval, and then resets the count |
| TimePatterns.FrameCountBounded | Assets/_Game/Scripts/Ameba/Reference/TimePatterns.cs:40-46 | with an interval of at least 1 the count stays in [0, interval), and an Update fires exactly when the count returns to zero |
| TimePatterns.FirstFrameFire | Assets/_Game/Scripts/Ameba/Reference/TimePatterns.cs:40-46 | the first interval - 1 Updates only count, and Update number interval fires |
| TimePatterns.FrameTimerPeriodic | Assets/_Game/Scripts/Ameba/Reference/TimePatterns.cs:40-46 | Update n + interval behaves as Update n, so the timer fires on every interval-th Update |
| TimePatterns.EveryFrameFires | Assets/_Game/Scripts/Ameba/Reference/TimePatterns.cs:40-46 | with an interval of 1 or less every Update fires |
| TimePatterns.Timer.constructor | Assets/_Game/Scripts/Ameba/Reference/TimePatterns.cs:116-120 | a new timer keeps its duration with nothing elapsed |
| TimePatterns.Timer.Tick | Assets/_Game/Scripts/Ameba/Reference/TimePatterns.cs:126-133 | the elapsed time and the result follow TickStep with the duration, so elapsed stays zero or below the duration |
| TimePatterns.Timer.Reset | Assets/_Game/Scripts/Ameba/Reference/TimePatterns.cs:136 | elapsed becomes zero |
| TimePatterns.TimerSO.constructor | Assets/_Game/Scripts/Ameba/Reference/TimePatterns.cs:164-165 | the interval starts at 1 with nothing elapsed |
| TimePatterns.TimerSO.Tick | Assets/_Game/Scripts/Ameba/Reference/TimePatterns.cs:167-174 | the same contract as Timer.Tick, against the interval |
| TimePatterns.TimerSO.Reset | Assets/_Game/Scripts/Ameba/Reference/TimePatterns.cs:176 | elapsed becomes zero |
| TimePatterns.TimeAccumulatorTimer.constructor | Assets/_Game/Scripts/Ameba/Reference/TimePatterns.cs:19-21 | the interval starts at 1 with nothing accumulated |
| TimePatterns.TimeAccumulatorTimer.Update | Assets/_Game/Scripts/Ameba/Reference/TimePatterns.cs:23-29 | the accumulator and the trigger follow TickStep with the interval |
| TimePatterns.FrameBasedTimer.constructor | Assets/_Game/Scripts/Ameba/Reference/TimePatterns.cs:37-38 | the interval starts at 30 with no frames counted |
| TimePatterns.FrameBasedTimer.Update | Assets/_Game/Scripts/Ameba/Reference/TimePatterns.cs:40-46 | the count and the trigger follow FrameStep, and with an interval of at least 1 the count stays in [0, interval) |
| TimePatterns.EventTimer.constructor | Assets/_Game/Scripts/Ameba/Reference/TimePatterns.cs:204 | no coroutine is held |
| TimePatterns.EventTimer.StartTimer | Assets/_Game/Scripts/Ameba/Reference/TimePatterns.cs:207-210 | a coroutine starts only when none is held; while one is held nothing changes |
| TimePatterns.EventTimer.StopTimer | Assets/_Game/Scripts/Ameba/Reference/TimePatterns.cs:213-218 | the held coroutine, if any, is stopped and the handle cleared |
| HotelDoor.DoorMaterial.constructor | Assets/_Game/Scripts/BiomeCity/HotelDoorController.cs:13 | a material with no writes yet |
| HotelDoor.DoorMaterial.SetFloat | Assets/_Game/Scripts/BiomeCity/HotelDoorController.cs:38 | one float write is recorded |
| HotelDoor.IsOnEnd | Assets/_Game/Scripts/BiomeCity/HotelDoorController.cs:51 | when Start < End, at End means at or above End; otherwise at or below End |
| HotelDoor.IsOnStart | Assets/_Game/Scripts/BiomeCity/HotelDoorController.cs:53 | when Start < End, at Start means at or below Start; otherwise at or above Start |
| HotelDoor.NextFade | Assets/_Game/Scripts/BiomeCity/HotelDoorController.cs:55 | a step of exactly Speed times delta towards End, never moving away from End for a non-negative step |
| HotelDoor.PrevFade | Assets/_Game/Scripts/BiomeCity/HotelDoorController.cs:57 | a step of the same size towards Start |
| HotelDoor.PrevUndoesNext | Assets/_Game/Scripts/BiomeCity/HotelDoorController.cs:55-57 | with the same delta a step back undoes a step forward, and the other way round |
| HotelDoor.DoorStep | Assets/_Game/Scripts/BiomeCity/HotelDoorController.cs:32-48 | in range and not at End the door advances; out of range and not at Start it retreats; otherwise nothing is written |
| HotelDoor.OvershootBelowOneStep | Assets/_Game/Scripts/BiomeCity/HotelDoorController.cs:34-36 | no clamping: the step that reaches End passes it by less than one step, after which the door stops |
| HotelDoor.UndershootBelowOneStep | Assets/_Game/Scripts/BiomeCity/HotelDoorController.cs:42-44 | the step that reaches Start passes it by less than one step, after which the door stops |
| HotelDoor.ClosedDoorStaysClosed | Assets/_Game/Scripts/BiomeCity/HotelDoorController.cs:40-47 | a door resting at Start with nobody in range writes nothing |
| HotelDoor.OpeningMovesAwayFromStart | Assets/_Game/Scripts/BiomeCity/HotelDoorController.cs:32-39 | with Start below End and a positive step, the first Update in range from Start writes Start plus one step |
| HotelDoor.HotelDoorController.constructor | Assets/_Game/Scripts/BiomeCity/HotelDoorController.cs:9-17 | the default fade range 0.1 to -3.8, speed 1, out of range |
| HotelDoor.HotelDoorController.Start | Assets/_Game/Scripts/BiomeCity/HotelDoorController.cs:21-25 | the material and property id are stored and the fade starts at StartFadeValue |
| HotelDoor.HotelDoorController.Update | Assets/_Game/Scripts/BiomeCity/HotelDoorController.cs:27-49 | without a material nothing changes; otherwise the fade and the material writes follow DoorStep |
| HotelDoor.HotelDoorController.OnTriggerEnter2D | Assets/_Game/Scripts/BiomeCity/HotelDoorController.cs:59 | entering the trigger puts the player in range |
| HotelDoor.HotelDoorController.OnTriggerExit2D | Assets/_Game/Scripts/BiomeCity/HotelDoorController.cs:61 | leaving the trigger takes the player out of range |
| MaterialLibraries.LibraryInstance.constructor | Assets/_Game/Scripts/BiomeCity/MaterialLibrary.cs:9 | no instance is set |
| MaterialLibraries.MaterialLibrary.constructor | Assets/_Game/Scripts/BiomeCity/MaterialLibrary.cs:7 | the library holds the given list |
| MaterialLibraries.MaterialLibrary.Awake | Assets/_Game/Scripts/BiomeCity/MaterialLibrary.cs:11 | this library becomes the shared instance |
| MaterialLibraries.MaterialLibrary.GetMaterial | Assets/_Game/Scripts/BiomeCity/MaterialLibrary.cs:13-18 | the element at the option's index when the list exists and the index is in range; null when the list is null or the index is negative or past the end |
| DamageDash.ChosenTarget | Assets/_Game/Scripts/CorgiEngine/Agents/CharacterAbilities/CharacterDamageDashExt.cs:35-63 | the selection table; the upwards target needs its flag and |y| above the threshold, the horizontal one its flag and |x| above it |
| DamageDash.DefaultCases | Assets/_Game/Scripts/CorgiEngine/Agents/CharacterAbilities/CharacterDamageDashExt.cs:41-60 | a diagonal dash with the Default option, or any dash with neither flag on, takes the default copy |
| DamageDash.DiagonalDirectional | Assets/_Game/Scripts/CorgiEngine/Agents/CharacterAbilities/CharacterDamageDashExt.cs:45-48 | a diagonal dash with a directional option takes that target exactly when its flag is on, else the default |
| DamageDash.StraightDashRules | Assets/_Game/Scripts/CorgiEngine/Agents/CharacterAbilities/CharacterDamageDashExt.cs:54-60 | a straight dash with only the horizontal flag takes that target exactly when |x| exceeds the threshold; the upwards flag makes the choice depend on |y| alone, so with both flags a purely horizontal dash gets the default |
| DamageDash.CharacterDamageDashExt.constructor | Assets/_Game/Scripts/CorgiEngine/Agents/CharacterAbilities/CharacterDamageDashExt.cs:14-33 | both flags off and the Default option |
| DamageDash.CharacterDamageDashExt.DetermineTargetDamageOnTouch | Assets/_Game/Scripts/CorgiEngine/Agents/CharacterAbilities/CharacterDamageDashExt.cs:35-63 | the branch-by-branch overwrites end in the target the table chooses |
| DamageDash.CharacterDamageDashExt.InitiateDash | Assets/_Game/Scripts/CorgiEngine/Agents/CharacterAbilities/CharacterDamageDashExt.cs:77-80 | the target is chosen before the base dash starts, and the dash starts with it |

## Left out

- Rendering, the property block's upload to the GPU, `Debug.Log` messages and the editor and inspector code are not modelled. Logging has no effect on state.
- Coroutine scheduling is not modelled as such. `SSUPlayer.PlayAnimations` is an explicit phase (idle, delaying, running, pausing) advanced once per frame. `EventTimer.TimerLoop` (wait, then invoke `onTick`) is not modelled, because its timing is Unity's.
- Floating point is not modelled: floats are exact reals, so rounding, NaN and infinities are absent. `Mathf.RoundToInt`'s banker's rounding is modelled exactly on reals.
- `AnimationCurve.Evaluate` is an arbitrary function from real to real. Unity's curve evaluation is not part of this model.
- SSUPlayer.Player.Resume, SSUPlayer.Player.PlayLoopIteration, SSUPlayer.Player.RunIteration and SSUPlayer.Player.Frame require a renderer. The component does not require one, and without it the coroutine evaluates the animators and then throws at `SetPropertyBlock`, which ends the coroutine with IsPlaying left true. That path is not modelled. Stop models its own null renderer as the NullRenderer error.
- SSUPlayer: the animators of a player are distinct objects. Aliasing of one animator twice in the list is not modelled.
- SSUShaderBase.ReadField reads material properties only with the getter of the field's kind. A read from a property of another type is modelled as a zero default (0.0 or the zero vector); Unity's actual answer for such a read is not.
- SSUShaderBase.ShaderComponent.ApplyToMaterial: a null field value throws in the source (`value.GetType()`), and the model reports it as an error that aborts the rest of the sync.
- `FieldInfo` reflection is modelled as a sequence of field descriptors in declaration order. Attribute lookup and `BindingFlags` are not modelled.
- RuntimeMaps.RuntimeMap.GetItem models the evidently intended lookup. A stored pair equal to the default pair is treated as present, although the source could not tell it apart.
- RuntimeMaps.RuntimeMap.RemoveByKey: the source's `Equals` never returns (see Findings), and the model removes the pair the lookup finds.
- RuntimeMaps.RuntimeMap.Contains models the intended membership test. The source's `Contains` calls the same `Equals` and never returns (see Findings).
- RuntimeRegistries: configuration identity is an id number. A null element of the configuration list and `Equals` overrides on configuration types are not modelled.
- `RuntimeRegistryInitializer`, `ApplyConfig` and the copier strategies are reflection plumbing around `MergeConfigs` and are not part of this model. Only the consequence of line 31 (the configuration is applied only when TryGet returns true) is used.
- RuntimeConfigApplier.MergeConfigs: the inputs are lists of field values. Instantiating the new object through `Activator.CreateInstance` is not modelled beyond the constructor check.
- `FixedUpdateTimer`, `CoroutineTimer`, `RealtimeTimer`, `TimerUser`, `SOUser` and `EventTriggerExample` are samples that only call the modelled timers or Unity's own timing, and are not modelled.
- C# `int` overflow of `FrameBasedTimer.frameCount` is not modelled. The count never exceeds the interval, so it cannot overflow.
- `Time.deltaTime`, `Shader.PropertyToID` and `GetComponent<SpriteRenderer>().material` are parameters of the door's `Start` and `Update`. A missing sprite renderer is not modelled.
- MaterialLibraries: the static `Instance` property is a shared `LibraryInstance` object, and `MaterialOptions` is its integer value.
- DamageDash: `ComputeDashDirection`, `Initialization` and `StopDash` belong to the base dash ability, which is not part of this model. The dash direction and threshold are inputs.

## Findings

| source | as written | input that shows it | evidently intended | confidence | as-written member | corrected member |
|---|---|---|---|---|---|---|
| Assets/_Game/Scripts/Ameba/Runtime/RuntimeMap.cs:17 | `KeyValue.Equals(KeyValue other)` first evaluates `other.Equals(default)`, which resolves to the same overload and recurses without end. `GetItem`, `Contains` and `RemoveByKey` call it (and `Remove` through `RemoveByKey`), so none of them returns (stack overflow). | `GetItem(k)` on any map, even an empty one | compare with the default pair structurally, then compare key and value | not executed | RuntimeMaps.GetItemAsWrittenDiverges | RuntimeMaps.RuntimeMap.GetItem |
| Assets/_Game/Scripts/Ameba/Runtime/RuntimeMap.cs:49 | `Contains` is `!FirstOrDefault(key).Equals(default)`, which calls the self-recursive `KeyValue.Equals` above, so it never returns. | `Contains(k)` on any map, even an empty one | true exactly when some pair has the key | not executed | RuntimeMaps.ContainsAsWrittenDiverges | RuntimeMaps.RuntimeMap.Contains |
| Assets/_Game/Scripts/Ameba/Runtime/Registry/RuntimeRegistry.cs:17-20 | `TryGetConfigForScene` returns `config.Equals(defaultConfig)`: true on the default fallback, false when the scene's own configuration is found | a default configuration plus one configuration for scene "Level1", queried with "Level1": the configuration is found but the call returns false, so the initializer does not apply it | return true exactly when the configuration found is not the default | not executed | RuntimeRegistries.SceneConfigReportedMissing | RuntimeRegistries.TryGetSceneConfigFindsScene |
