# Station Iapetus core logic in Dafny

This project models three pieces of decision logic from the Station Iapetus shooter and proves properties about them. The engine work around them (scene graph, physics, audio, asset loading) is abstracted away.

- **The upper-body combat animator** (`upper_body.dfy`, module `UpperBody`):
  - the eleven animation states and the 40 transitions in declaration order, with Idle as the entry state;
  - the parameter table that `apply` writes each tick, as a map where the last write to a name wins;
  - the blend nodes that read the table;
  - the clip setup (which clips loop, and the signals);
  - a step of the layer: the first enabled transition leaving the current state wins.
- **The hips pose filter** (`hips_filter.dfy`, module `HipsFilter`). On the hips node only scale values carrying a vector are applied. Every other node takes the whole pose.
- **The level** (`level.dfy`, module `Levels`):
  - entity pools for characters, weapons, items and projectiles;
  - the handlers for removing weapons and characters, giving weapons and items, picking items up, damaging, spawning characters, items and projectiles, and shooting;
  - the death-zone damage requests and the end-of-match check;
  - the classification of map nodes by name prefix;
  - the spawn-point search;
  - the dispatch of messages to handlers;
  - the invariant `WellArmed`: every live character carries only live weapons of its own, each once. A new level has it and every handler keeps it, so the handlers' unchecked weapon reads cannot fail.
- **Doors** (`door.dfy`, module `Doors`):
  - the door state id codec and the default state;
  - one door's tick: proximity, then motion with a clamped offset, then the lights;
  - the container tick over a pool of doors.
- **Shared pieces:**
  - `pools.dfy` (module `Pools`) holds the engine's handle pool: freed slots stay in place and `NoHandle` is never contained.
  - `common.dfy` (module `Common`) holds options, results, points and an abstract distance function.

The parameter names of the animator are modelled as numbered keys (`ParamKey`). Only whether two names are the same matters to the map. The walk state's weapon-kind constant holds the same text as the idle state's, so both are modelled as one key.

## Model

| member | source | states |
|---|---|---|
| UpperBody.DyingIsAbsorbing | game/src/player/upper_body.rs:472-759 | No transition leaves Dying, so a step from Dying stays in Dying whatever the parameters say. |
| UpperBody.DeathTransition | game/src/player/upper_body.rs:646-744 | Every state other than Dying has a declared transition into Dying. |
| UpperBody.DeathTransitionRules | game/src/player/upper_body.rs:646-744 | Every transition into Dying is guarded by one of the nine death rules or by the hit reaction's death rule. |
| UpperBody.MeantDeathRules | game/src/player/upper_body.rs:928-941 | Under the meant parameter values, every rule into Dying holds exactly when the character is dead. |
| UpperBody.PathTo | game/src/player/upper_body.rs:472-761 | Every state is reachable from the entry state Idle along declared transitions. The path starts at Idle, ends at the state, and each step is a table edge. |
| UpperBody.Parent | game/src/player/upper_body.rs:472-759 | Each non-entry state has a parent one step closer to Idle. |
| UpperBody.ParentEdge | game/src/player/upper_body.rs:472-759 | The table declares a transition from each state's parent into the state. |
| UpperBody.EntryEdge | game/src/player/upper_body.rs:472-761 | Idle has a declared transition into each state at depth one: Walk, Jump, Fall, Aim, PutBack, Dying and HitReaction. |
| UpperBody.Settings | game/src/player/upper_body.rs:430-470 | Each clip's loop flag, speed, enabled flag and signals after setup. The hit-reaction clips take the settings their own state's setup gives them, a parameter here. `UpperBody.ClipSetup` states what this means. |
| UpperBody.ClipSetup | game/src/player/upper_body.rs:430-470 | The jump, land, put-back, grab and toss-grenade clips, whose end drives a rule, do not loop after setup, and neither does the dying clip. The hit-reaction clips, whose end drives `recovered`, keep the settings made outside this file. The grab, put-back and toss-grenade signal ids are pairwise different. The put-back signal sits at the clip's length. Every other clip keeps the engine defaults, except the idle-pistol clip, which is slowed to 0.25 when the idle state is built (line 52). |
| UpperBody.ParametersWith | game/src/player/upper_body.rs:789-959 | The table `apply` writes, one map update per `set_parameter` call in source order, with the walk index under a chosen name. It carries no contract of its own: `UpperBody.ParametersHoldMeant` states what each name holds. |
| UpperBody.ParametersAsWritten | game/src/player/upper_body.rs:942-959 | The table with the walk index written under the idle state's name, as the constants make it. `UpperBody.WalkNeverRunsAsWritten` states its consequence. |
| UpperBody.Parameters | game/src/player/upper_body.rs:942-945 | The table with the walk index under the walk state's own name. `UpperBody.PoseFollowsWeapon` states its consequence. |
| UpperBody.LocomotionWrites | game/src/player/upper_body.rs:800-843 | The locomotion and aiming calls write exactly their own names, each with its meant rule. |
| UpperBody.WeaponChangeWrites | game/src/player/upper_body.rs:844-896 | The weapon-change calls write exactly their own names, each with its meant rule. |
| UpperBody.CombatWrites | game/src/player/upper_body.rs:897-932 | The aim weights, the hit-reaction index and the hit-reaction rules are written with their meant values. |
| UpperBody.DyingWrites | game/src/player/upper_body.rs:933-941 | The death group writes each death rule as the dead flag. |
| UpperBody.FinalWrites | game/src/player/upper_body.rs:942-959 | The last calls write the grenade rules and the weapon-kind index. Under the idle name the idle index is written last, so the run-adjusted walk index written there first is lost. |
| UpperBody.ParametersHoldMeant | game/src/player/upper_body.rs:789-959 | Apart from the walk index, no later write overwrites an earlier name. The table `apply` writes holds every name's meant value. |
| UpperBody.MeantLocomotionComplementary | game/src/player/upper_body.rs:800-822 | IdleToWalk and WalkToIdle are complementary, and so are the falling and landing rules. The rules into Fall agree from Idle and from Walk. |
| UpperBody.MeantAimComplementary | game/src/player/upper_body.rs:824-839 | IdleToAim and WalkToAim both mean aiming with ground contact. AimToIdle and AimToWalk are both its negation. |
| UpperBody.MeantWeaponSelectors | game/src/player/upper_body.rs:791-913 | Exactly one aim factor is 1.0 and the other 0.0, matching the weapon kind. The hit-reaction index is 0 for the rifle and 1 for the pistol. |
| UpperBody.MeantStunHolds | game/src/player/upper_body.rs:914-931 | A stunned character enters the hit reaction from Idle, Walk and Aim, and no rule out of the hit reaction fires while it is stunned. |
| UpperBody.MeantRecoveryOrdered | game/src/player/upper_body.rs:795-931 | Recovery means not stunned and the current weapon's hit-reaction clip has ended. HitReactionToAim implies HitReactionToIdle. |
| UpperBody.GuardsOfApply | game/src/player/upper_body.rs:789-959 | The table `apply` writes satisfies all the guard properties above, whichever name the walk index is written under. |
| UpperBody.FirstEnabledFrom | game/src/player/upper_body.rs:472-759 | The scan returns the first enabled transition out of a state in declaration order. It returns None exactly when none is enabled. |
| UpperBody.FirstEnabled | game/src/player/upper_body.rs:472-759 | The first transition of the whole table that leaves the state and whose rule fires. It is None exactly when no transition out of the state is enabled. |
| UpperBody.Step | game/src/player/upper_body.rs:472-759 | The layer moves along a declared transition exactly when some transition out of the state is enabled, and stays where it is otherwise. |
| UpperBody.FirstEnabledIs | game/src/player/upper_body.rs:472-759 | An enabled transition with no earlier enabled transition from the same state is the one the layer takes. |
| UpperBody.IdleStartsWalking | game/src/player/upper_body.rs:486-492 | When IdleToWalk fires, Idle steps to Walk. |
| UpperBody.WalkStopsFirst | game/src/player/upper_body.rs:472-478 | When WalkToIdle fires, Walk steps to Idle. This holds even when the death rule also fires, since Walk->Idle is declared first. |
| UpperBody.AimNeverStepsToWalk | game/src/player/upper_body.rs:551-564 | When the two rules out of Aim agree, Aim->Idle (declared first) wins, and Aim never steps straight to Walk. |
| UpperBody.StepsOfApply | game/src/player/upper_body.rs:789-959 | Under the table `apply` writes: a walking idle character starts walking; a character that stops walking goes to Idle; Aim never steps to Walk; Dying is never left. |
| UpperBody.StateNode | game/src/player/upper_body.rs:31-425 | The pose node at the root of each state: index blends for Idle, Walk and HitReaction, a weight blend for Aim, one clip elsewhere. `UpperBody.MeantIndexedPoses`, `UpperBody.MeantAimPose` and `UpperBody.MeantWalkPose` state which clip each settles on. |
| UpperBody.ActiveClip | game/src/player/upper_body.rs:31-425 | The clip a state's root node plays at rest under a table. Its properties are stated by the Meant*Pose lemmas. |
| UpperBody.FullWeight | game/src/player/upper_body.rs:331-340 | A weighted blend settles on the first pose whose weight parameter is full. It returns None exactly when no weight is full. |
| UpperBody.MeantIndexedPoses | game/src/player/upper_body.rs:301-361 | Under the meant values, the idle and hit-reaction nodes play the current weapon's clip. |
| UpperBody.MeantAimPose | game/src/player/upper_body.rs:331-341 | Under the meant values, the aim node plays the current weapon's aim clip. |
| UpperBody.MeantWalkPose | game/src/player/upper_body.rs:411-425 | The walk node plays the current weapon's clip. Under its own name it runs exactly when the run factor exceeds 0.1. Under the idle name it never runs. |
| UpperBody.PoseFollowsWeapon | game/src/player/upper_body.rs:942-945 | With the walk index under its own name, every weapon-dependent state plays the current weapon's clip, and the walk node runs exactly when the run factor exceeds 0.1. |
| UpperBody.WalkNeverRunsAsWritten | game/src/player/upper_body.rs:239-240 | As written, the walk state's name is never written and the shared name only ever holds 0 or 1. The walk node never plays a run clip. |
| UpperBody.MeantRunningRifle | game/src/player/upper_body.rs:942-959 | For a running rifle holder, the as-written table plays the walk clip and the corrected table plays the run clip. |
| UpperBody.RunningRifleAsWritten | game/src/player/upper_body.rs:942-959 | For any running rifle holder, the walk node plays the walk clip as written and the run clip once corrected. |
| UpperBody.DuplicateLabelAsWritten | game/src/player/upper_body.rs:544-564 | As written, the Walk->Aim and Aim->Walk transitions both carry the label "Walk->Aim". |
| UpperBody.LabelsUnique | game/src/player/upper_body.rs:558-564 | Relabelled "Aim->Walk", that transition's label is unique, and nothing else in the table changes. |
| HipsFilter.ApplyAll | game/src/player/upper_body.rs:982-983 | The whole pose applied value after value. `HipsFilter.FullPoseIsLastWrites` states what it leaves. |
| HipsFilter.ApplyHips | game/src/player/upper_body.rs:968-980 | The hips filter: only scale values carrying a vector are applied. `HipsFilter.HipsKeepPlacement` and `HipsFilter.HipsScaleAsFullPose` state what it leaves. |
| HipsFilter.FullPoseIsLastWrites | game/src/player/upper_body.rs:982-983 | Applying the whole pose leaves position, rotation and scale at the last value written to each. |
| HipsFilter.HipsKeepPlacement | game/src/player/upper_body.rs:962-980 | On the hips node, position and rotation are never changed by the pose. |
| HipsFilter.HipsScaleAsFullPose | game/src/player/upper_body.rs:968-980 | The hips end with the scale the whole pose would have given them: the last scale vector. |
| HipsFilter.ApplyToNode | game/src/player/upper_body.rs:961-985 | The hips node keeps its placement and takes the pose's scale. Every other node takes the full pose. |
| Doors.Id | src/door.rs:30-32 | A state's id is at most 5, and reading it back gives the state. |
| Doors.FromId | src/door.rs:34-44 | Reading an id succeeds exactly for ids 0 to 5. Any other id is an error naming that id. |
| Doors.IdRoundTrip | src/door.rs:29-45 | `from_id(id(s)) == Ok(s)`, `id` is injective, and every id that reads back is the id of what it reads as. |
| Doors.NewDoor | src/door.rs:81-92 | A new door has the given state, offset 0 and its node's position. |
| Doors.Proximity | src/door.rs:138-144 | Proximity changes a state only for a needed Closed door, which starts opening, and an unneeded Opened door, which starts closing. |
| Doors.Slide | src/door.rs:147-167 | Only a moving door slides. Its state changes only when it reaches its stop: Opening becomes Opened at 0.75 and Closing becomes Closed at 0. The initial position never changes. |
| Doors.LightsFor | src/door.rs:146-180 | The lights for the state a tick's motion starts from. `Doors.UpdateDoor` states their meaning. |
| Doors.UpdateDoor | src/door.rs:138-180 | The lights are on exactly for a Closed door left closed and for a Locked door: green for the first, red for the second. Otherwise they are off with no colour. The initial position never changes. |
| Doors.ProximityTriggers | src/door.rs:138-168 | A needed Closed door starts opening and an unneeded Opened door starts closing. Closed-and-unneeded and Opened-and-needed doors are untouched. A moving door keeps its direction until it reaches a stop. |
| Doors.FrozenDoors | src/door.rs:173-179 | Locked and Broken doors never change state or offset. |
| Doors.TickKeepsShape | src/door.rs:146-168 | With dt >= 0 the offset stays within [0, 0.75]. Closed stays at 0 and Opened at 0.75, and a door that reaches a stop is clamped there. |
| Doors.MotionProgresses | src/door.rs:147-167 | With dt > 0, a moving door either reaches its stop or its offset changes by exactly dt. |
| Doors.ClosingFinishesDark | src/door.rs:158-172 | On the tick a door finishes closing, the lights stay off. They turn green on the next tick. |
| Doors.UpdateDoors | src/door.rs:127-198 | Each live door gets the tick its own fields and the actor positions give it. Free slots stay free. With dt >= 0 every door keeps its shape. |
| Levels.RemoveWeapon | src/level.rs:599-608 | The weapon is freed and no other weapon slot changes. Exactly the projectiles it fired lose their owner. Nothing else in the level changes. |
| Levels.DropWeapons | src/level.rs:640-649 | Dropping weapons changes only weapons, items and projectiles. |
| Levels.DropFirst | src/level.rs:640-649 | One dropped weapon adds one temporary item of the mapped kind, frees that weapon only, and clears the owner of its projectiles. |
| Levels.DropFreesExactly | src/level.rs:640-649 | After dropping a character's weapons, exactly those weapon slots are freed. |
| Levels.DropResetsOwners | src/level.rs:599-649 | After dropping, exactly the projectiles fired by the dropped weapons have no owner. |
| Levels.DropLeavesItems | src/level.rs:640-649 | Dropping appends one item per weapon, in order, each of the mapped kind with lifetime 20, and keeps the earlier items. |
| Levels.RemoveActorFrom | src/level.rs:628-659 | Removing an absent character changes nothing. Otherwise the character is freed, other characters are untouched, and the player becomes NONE exactly when it was this character. |
| Levels.RemoveActorCascade | src/level.rs:628-659 | Removal frees exactly the character's weapons and clears the owner of their projectiles. It adds one item per weapon (M4→M4, Ak47→Ak47, PlasmaRifle→PlasmaGun) at the ground below the character, with lifetime 20. |
| Levels.GiveNewWeaponTo | src/level.rs:327-347 | An absent character gets nothing. Otherwise a new weapon owned by the character lands in a fresh slot and its handle joins the character's weapons. |
| Levels.FirstOfKind | src/level.rs:674-683 | Finds the first carried weapon of a kind. It returns None exactly when the character carries none. |
| Levels.AddAmmo | src/level.rs:680-681 | One weapon gains the rounds and nothing else changes. |
| Levels.GiveItemTo | src/level.rs:661-706 | Giving an item changes only characters and weapons, and frees nothing. |
| Levels.GiveItemEffects | src/level.rs:661-706 | For an absent character nothing changes. A medkit heals 20. A weapon item adds 200 rounds to the first carried weapon of its kind, or gives a new weapon. An ammo item adds 200 rounds to the first matching weapon, or does nothing. |
| Levels.PickUp | src/level.rs:708-734 | With both the character and the item present: the item is marked picked up, one pickup sound is requested at its position, and the item is given. Otherwise nothing happens and nothing is sent. |
| Levels.DamageActorIn | src/level.rs:814-839 | Damage applies only when the target exists and the attacker is NONE or exists. Health drops by the amount. A bot hit by an attacker looks at the attacker's position at that time. Nothing else changes. |
| Levels.ZoneCountStep | src/level.rs:868-871 | Adding a zone adds one to the number of zones containing a point exactly when the new zone contains it. |
| Levels.ZoneHits | src/level.rs:868-884 | The number of lethal requests for a character equals the number of zones containing its position, as counted by `ZoneCount` over the zone positions. All of them are the same request. The list is non-empty exactly when some zone contains the point. |
| Levels.DeathZoneMessages | src/level.rs:867-886 | Every request is a DamageActor from NONE for 99999, aimed at a live character inside some zone. Every (character, zone containing it) pair yields a request. |
| Levels.DeathZoneCounts | src/level.rs:867-886 | Each live character receives exactly as many lethal requests as there are zones containing it, and a free slot receives none. |
| Levels.GameEnding | src/level.rs:888-896 | With the player present, EndMatch is sent exactly when the player is dead. With the player absent, the read of the player fails and the result is an error carrying the handle read. |
| Levels.Classify | src/level.rs:236-254 | A node's role from the first matching name prefix. `Levels.ClassifyByPrefix` states its meaning. |
| Levels.Analyze | src/level.rs:226-281 | The analysis of the scene's nodes in order. `Levels.AnalyzeCollects` and `Levels.AnalyzeJoins` state its meaning. |
| Levels.PrefixesExclusive | src/level.rs:239-249 | A node name starts with at most one of the six prefixes. |
| Levels.ClassifyByPrefix | src/level.rs:236-254 | A node is an item, a spawn point or a death zone exactly when its name starts with the matching prefix. A death zone must also be a mesh. |
| Levels.AnalyzeJoins | src/level.rs:236-254 | Analysing two runs of nodes gives the two results joined in node order. |
| Levels.AnalyzeInOrder | src/level.rs:236-253 | The items, spawn points and death zones of an analysis equal the separately defined front-to-back filters `ItemsOf`, `SpawnPointsOf` and `DeathZonesOf`: one entry per node of that role, in node order, so nothing is repeated or reordered. |
| Levels.AnalyzeMembers | src/level.rs:236-253 | Membership both ways: every reported entry comes from a node of that role, and every node of that role is reported. |
| Levels.AnalyzeCollects | src/level.rs:226-281 | The analysis lists exactly one entry per classified item, spawn-point and death-zone node, in node order, as the filters give them; hence membership holds both ways. The items and zones are then passed on in that order (src/level.rs:256-276). |
| Levels.DistanceSumNonNegative | src/level.rs:362-366 | With a non-negative distance, a spawn point's summed distance is non-negative. |
| Levels.Scan | src/level.rs:357-371 | The search's index is either the random start or one of the points scanned. |
| Levels.ScanFindsFirstFarthest | src/level.rs:357-371 | Once every sum beats -MAX, the search holds the first point with the largest sum, because only a strictly larger sum replaces the best. |
| Levels.SuitableSpawnPoint | src/level.rs:349-373 | No points gives the usize::MAX sentinel. Otherwise the result is a valid index, and with non-negative distances it is the first farthest point. |
| Levels.ScanWithDistances | src/level.rs:357-371 | With non-negative distances the full search ends on the first farthest point. |
| Levels.RandomStartNeverSurvives | src/level.rs:355-371 | With non-negative distances, two different random starts choose the same spawn point. |
| Levels.SpawnPositions | src/level.rs:292-295 | Without spawn points the player and bots appear at the origin. Otherwise a bot stands on the first farthest point and the player 1.5 above it. |
| Levels.GiveWeapons | src/level.rs:309-322 | Gives the listed weapons in order, each in a fresh slot owned by the character. The handles follow the ones the character had. |
| Levels.Enter | src/level.rs:283-324 | A new character is added at the position with exactly the new weapons' handles. Earlier characters and weapons are untouched and nothing is freed. |
| Levels.SpawnPlayerIn | src/level.rs:283-324 | The player spawns at the chosen point's position, armed with a new M4, Ak47 and plasma rifle, and becomes the level's player. Nothing else is touched. |
| Levels.AddBotIn | src/level.rs:403-433 | A bot is added at the given position, armed with a new Ak47. |
| Levels.SpawnBotIn | src/level.rs:375-401 | A bot spawns on the chosen point with no lift. Earlier characters are untouched. |
| Levels.SpawnItemIn | src/level.rs:841-865 | One item is added, not yet picked up, with the given lifetime, placed on the ground below the position when height adjustment is asked. Nothing else changes. |
| Levels.DropIsSpawnedItem | src/level.rs:646-647 | A dropped weapon's item is the item spawn_item adds with height adjustment and lifetime 20. |
| Levels.CreateProjectileIn | src/level.rs:736-760 | One projectile owned by the given weapon is added. Nothing else changes. |
| Levels.ShootWeaponIn | src/level.rs:762-793 | An absent weapon does nothing. Otherwise the weapon keeps its kind and owner and holds the rounds its firing rule leaves. A projectile owned by it is added exactly when it fires. |
| Levels.KeepsArmed | src/level.rs:661-706 | A level stays well armed when weapons keep their owners and every live character was already live in the same slot with the same weapons. This covers healing, adding rounds, damage, shooting and adding items or projectiles. |
| Levels.GiveNewWeaponArmed | src/level.rs:327-347 | Giving a new weapon keeps the level well armed: the weapon is live, owned by its carrier, and carried once. |
| Levels.GiveWeaponsArmed | src/level.rs:309-322 | Giving several new weapons in turn keeps the level well armed. |
| Levels.EnterArmed | src/level.rs:283-324 | A character entering with its new weapons keeps the level well armed. |
| Levels.RemoveActorArmed | src/level.rs:628-659 | In a well-armed level the removed character's weapons are live and distinct, so every read removal makes succeeds. Removal keeps the level well armed, since a weapon another character carries is owned by that character and is not freed. |
| Levels.GiveItemArmed | src/level.rs:661-706 | In a well-armed level the receiving character's weapons are live, so the weapon reads succeed. Every branch of giving an item keeps the level well armed. |
| Levels.PickUpArmed | src/level.rs:708-734 | Picking up an item keeps the level well armed. |
| Levels.NewLevel | src/level.rs:436-512 | A new level holds the analysed items, not picked up and without a lifetime, and the map's spawn points and death zones. Its player exists and is a player character, and the level is well armed. |
| Levels.HandleMessage | src/level.rs:923-1003 | Dispatching any message to its handler keeps a well-armed level well armed. The other properties of dispatch are stated by the three lemmas below. |
| Levels.HandlersOnlyAdd | src/level.rs:923-1003 | Apart from removing a character or spawning the player, no message frees anything, replaces the player or touches the map. |
| Levels.HandlersKeepPlayer | src/level.rs:923-1003 | SpawnPlayer makes a new player character. RemoveActor changes the player exactly when it removes the present player. Spawn points and death zones never change. |
| Levels.PassiveMessages | src/level.rs:923-1003 | Sound, effect, visibility and match-flow messages leave the level unchanged. Only PickUpItem sends a message. |
| Levels.RemovedPlayerBreaksEnding | src/level.rs:888-890 | After the player is removed, the level's player is NONE and the next end-of-match check fails on reading it. |

## Left out

- **Animation engine internals.** Pose blending, transition timing, `evaluate_pose`, and the engine's `Machine` and `Pool` internals are library code that is not part of this model. A pool is modelled as a slot sequence and a step as the first enabled transition.
- **Asset loading.** Asset loading, `retarget_animations`, the `futures::join!` of the resources and the `unwrap` panics on missing resources are left out. The walk-pistol clip loads the idle-pistol file (upper_body.rs:283), which is asset plumbing and is not modelled as a distinct clip.
- **Clip speeds and signal offsets.** Clip speed values and the grab and toss-grenade signal offsets are recorded in the settings but not reasoned about. `UpperBody.ClipSetup` states loop flags and signal identities only.
- UpperBody.ClipSetup: promises nothing about the hit-reaction clips' looping or signals. Their settings are made by `make_hit_reaction_state`, which is not part of this model, so they are a parameter.
- **Audio, effects and debug drawing.** `SoundManager`, effect creation and `debug_draw` are left out. The pickup sound is modelled only as the message it sends.
- **Physics and channels.**
  - The downward ray cast in `pick` is a parameter, `ground`.
  - Proximity and contact event draining, projectile and item updates, and `set_message_sender` are not modelled.
  - Actor positions are fields rather than physics queries.
- **Floating point.** `f32` values are reals with no rounding. `Levels.ScanFindsFirstFarthest` and `Levels.SuitableSpawnPoint` assume exact sums.
- **Distance.** `metric_distance` is an abstract parameter. The first-farthest results hold when it is non-negative.
- **Randomness.** The random start index is a parameter, reduced modulo the number of points as `gen_range` would.
- **Character and weapon internals** live in files that are not part of this model:
  - `Actor::heal` and `Actor::damage` are modelled as adding and subtracting health, and `is_dead` as health at most 0;
  - `Item::pick_up` is modelled as a flag;
  - a new weapon's rounds, a weapon's firing rule (`try_shoot`) and the new player and bot bodies are parameters of `Levels.Env`;
  - the firing rule returns whether the weapon fired and the rounds it holds afterwards. A shot never changes a weapon's kind or owner;
  - `Item::new` is taken to make an item with no lifetime that is not picked up.
- **Pool slot reuse.** The engine may reuse freed slots. Here `Spawn` always appends, so the "fresh slot" statements describe this model's allocator.
- **Property tracks.** `HipsFilter.ApplyValue` ignores property bindings, which the whole pose also writes to non-hips nodes (upper_body.rs:983). The node state here is its local transform only, so those writes have nothing to change.
- **Weapon visibility.** The visibility of the weapon model (`show_weapon`, and the visibility flag passed by `give_new_weapon`) and the death-zone node hiding in `analyze` are scene state and not modelled. `ShowWeapon` only demands that the weapon exists.
- **Other unmodelled pieces.** `hit_reaction_animations`, `Visit` serialisation beyond the door state id codec, `LayerMask` construction, the scene and channel setup of `Level::new`, `update`'s scheduling and the door body's physical placement are left out.
- **Door setup.** `Door::new` accepts any state. A door created Opened or Closing with offset 0 would stay Closing forever, because its offset never moves. `Doors.TickKeepsShape` therefore assumes a consistent door rather than claiming this is impossible.
- Levels.SuitableSpawnPoint: states only the direction "no points gives usize::MAX". The converse needs fewer than usize::MAX points, which Rust's slices guarantee but unbounded sequences do not.
- Levels.HandlersOnlyAdd: says nothing about RemoveActor and SpawnPlayer. Those are covered by `Levels.RemoveActorCascade` and `Levels.HandlersKeepPlayer`.
- Levels.GiveItemTo, Levels.PickUp and Levels.RemoveActorFrom: require every carried weapon to be live, and removal also requires them to be distinct. The source reads carried weapons without a check and fails only at the first dead one it reaches (src/level.rs:638-649, 679-686, 690-699). `Levels.HandleMessage` discharges these requirements from `WellArmed`. `Levels.NewLevel` establishes `WellArmed` and every handler keeps it, so in a level built by the handlers these reads cannot fail.
- Levels.HandleMessage: requires that no present character is given a rocket-launcher item and that a weapon to show or hide exists. The source fails in both cases (`unreachable!` at src/level.rs:671 and the unchecked read at src/level.rs:796). The model excludes these inputs rather than modelling the failure.

## Findings

| source | as written | input that shows it | evidently intended | confidence | as-written member | corrected member |
|---|---|---|---|---|---|---|
| game/src/player/upper_body.rs:240 | `WALK_STATE_WEAPON_KIND` holds "IdleStateWeaponKind". The run-adjusted walk index written at line 942 is overwritten by the idle index at line 959 in the same tick. | A rifle holder with `run_factor` 0.5: the walk node reads index 0 and plays the walk clip instead of the run clip. | The walk state reads its own parameter, so running plays the run clip. | high, not executed | UpperBody.RunningRifleAsWritten | UpperBody.PoseFollowsWeapon |
| game/src/player/upper_body.rs:559 | The Aim→Walk transition is labelled "Walk->Aim", the label of the Walk→Aim transition at line 545. | Any table: two different transitions carry the label "Walk->Aim". | The label is "Aim->Walk". | high, not executed | UpperBody.DuplicateLabelAsWritten | UpperBody.LabelsUnique |
