/**
 * The upper-body combat animator of a humanoid: eleven animation states, the transition
 * table wired in declaration order, the per-tick parameter table that guards the
 * transitions, the pose nodes the parameters drive, and the clip settings made at setup.
 *
 * The layer's own machinery (blending, transition timing, pose evaluation) belongs to the
 * animation library; the model keeps only the decision it makes: from the active state,
 * the first transition in declaration order whose rule parameter is true is taken.
 */
module UpperBody {
  import opened Common

  datatype AnimState =
    | Idle | Walk | Jump | Fall | Land | Aim | TossGrenade | PutBack | Grab | Dying | HitReaction

  const EntryState: AnimState := Idle

  /**
   * The distinct parameter names the animator registers. Only their identity matters, so
   * each is a number: the names are numbered in the order `apply` first writes them.
   */
  newtype ParamKey = k: int | 0 <= k < 45

  const IdleToWalk: ParamKey := 0
  const WalkToIdle: ParamKey := 1
  const WalkToJump: ParamKey := 2
  const IdleToJump: ParamKey := 3
  const JumpToFall: ParamKey := 4
  const WalkToFall: ParamKey := 5
  const IdleToFall: ParamKey := 6
  const FallToLand: ParamKey := 7
  const LandToIdle: ParamKey := 8
  const IdleToAim: ParamKey := 9
  const WalkToAim: ParamKey := 10
  const AimToIdle: ParamKey := 11
  const AimToWalk: ParamKey := 12
  const AimToPutBack: ParamKey := 13
  const WalkToPutBack: ParamKey := 14
  const IdleToPutBack: ParamKey := 15
  const PutBackToIdle: ParamKey := 16
  const PutBackToWalk: ParamKey := 17
  const PutBackToGrab: ParamKey := 18
  const GrabToIdle: ParamKey := 19
  const GrabToWalk: ParamKey := 20
  const GrabToAim: ParamKey := 21
  const PistolAimFactor: ParamKey := 22
  const RifleAimFactor: ParamKey := 23
  const HitReactionWeaponKind: ParamKey := 24
  const IdleToHitReaction: ParamKey := 25
  const WalkToHitReaction: ParamKey := 26
  const AimToHitReaction: ParamKey := 27
  const HitReactionToIdle: ParamKey := 28
  const HitReactionToWalk: ParamKey := 29
  const HitReactionToDying: ParamKey := 30
  const HitReactionToAim: ParamKey := 31
  const LandToDying: ParamKey := 32
  const IdleToDying: ParamKey := 33
  const FallToDying: ParamKey := 34
  const WalkToDying: ParamKey := 35
  const JumpToDying: ParamKey := 36
  const AimToDying: ParamKey := 37
  const TossGrenadeToDying: ParamKey := 38
  const GrabToDying: ParamKey := 39
  const PutBackToDying: ParamKey := 40
  const WalkStateWeaponKind: ParamKey := 41
  const TossGrenadeToAim: ParamKey := 42
  const AimToTossGrenade: ParamKey := 43
  const IdleStateWeaponKind: ParamKey := 44

  /**
   * The key the walk state's blend node reads. In the source the constant for it holds the
   * text "IdleStateWeaponKind", the idle state's parameter name, so both states read one
   * parameter. `WalkKey` is the separate name evidently intended.
   */
  const WalkKeyAsWritten: ParamKey := IdleStateWeaponKind
  const WalkKey: ParamKey := WalkStateWeaponKind

  datatype Transition = Transition(name: string, source: AnimState, target: AnimState, duration: real, rule: ParamKey)

  /** The transitions in the order they are added to the layer. */
  const TransitionsAsWritten: seq<Transition> :=
    LocomotionTransitions + WeaponChangeTransitions + DyingTransitions + HitReactionTransitions

  /** Walking, jumping, falling, landing and aiming. */
  const LocomotionTransitions: seq<Transition> := [
    Transition("Walk->Idle", Walk, Idle, 0.30, WalkToIdle),
    Transition("Walk->Jump", Walk, Jump, 0.20, WalkToJump),
    Transition("Idle->Walk", Idle, Walk, 0.40, IdleToWalk),
    Transition("Idle->Jump", Idle, Jump, 0.25, IdleToJump),
    Transition("Falling->Landing", Fall, Land, 0.20, FallToLand),
    Transition("Landing->Idle", Land, Idle, 0.20, LandToIdle),
    Transition("Jump->Falling", Jump, Fall, 0.30, JumpToFall),
    Transition("Walk->Falling", Walk, Fall, 0.30, WalkToFall),
    Transition("Idle->Falling", Idle, Fall, 0.20, IdleToFall),
    Transition("Idle->Aim", Idle, Aim, 0.20, IdleToAim),
    Transition("Walk->Aim", Walk, Aim, 0.20, WalkToAim),
    Transition("Aim->Idle", Aim, Idle, 0.20, AimToIdle),
    Transition("Walk->Aim", Aim, Walk, 0.20, AimToWalk),
    Transition("Aim->TossGrenade", Aim, TossGrenade, 0.20, AimToTossGrenade),
    Transition("TossGrenade->Aim", TossGrenade, Aim, 0.20, TossGrenadeToAim)
  ]

  /** Putting the weapon back and grabbing the next one. */
  const WeaponChangeTransitions: seq<Transition> := [
    Transition("Aim->PutBack", Aim, PutBack, 0.10, AimToPutBack),
    Transition("Walk->PutBack", Walk, PutBack, 0.10, WalkToPutBack),
    Transition("Idle->PutBack", Idle, PutBack, 0.10, IdleToPutBack),
    Transition("PutBack->Idle", PutBack, Idle, 0.20, PutBackToIdle),
    Transition("PutBack->Walk", PutBack, Walk, 0.20, PutBackToWalk),
    Transition("PutBack->Grab", PutBack, Grab, 0.10, PutBackToGrab),
    Transition("Grab->Idle", Grab, Idle, 0.20, GrabToIdle),
    Transition("Grab->Walk", Grab, Walk, 0.20, GrabToWalk),
    Transition("Grab->Aim", Grab, Aim, 0.20, GrabToAim)
  ]

  /** Into Dying from every state the death rule can interrupt. */
  const DyingTransitions: seq<Transition> := [
    Transition("Land->Dying", Land, Dying, 0.20, LandToDying),
    Transition("Fall->Dying", Fall, Dying, 0.20, FallToDying),
    Transition("Idle->Dying", Idle, Dying, 0.20, IdleToDying),
    Transition("Walk->Dying", Walk, Dying, 0.20, WalkToDying),
    Transition("Jump->Dying", Jump, Dying, 0.20, JumpToDying),
    Transition("Aim->Dying", Aim, Dying, 0.20, AimToDying),
    Transition("TossGrenade->Dying", TossGrenade, Dying, 0.20, TossGrenadeToDying),
    Transition("Grab->Dying", Grab, Dying, 0.20, GrabToDying),
    Transition("PutBack->Dying", PutBack, Dying, 0.20, PutBackToDying)
  ]

  /** Into and out of the hit reaction. */
  const HitReactionTransitions: seq<Transition> := [
    Transition("Idle->HitReaction", Idle, HitReaction, 0.20, IdleToHitReaction),
    Transition("Walk->HitReaction", Walk, HitReaction, 0.20, WalkToHitReaction),
    Transition("HitReaction->Idle", HitReaction, Idle, 0.20, HitReactionToIdle),
    Transition("HitReaction->Walk", HitReaction, Walk, 0.20, HitReactionToWalk),
    Transition("HitReaction->Dying", HitReaction, Dying, 0.20, HitReactionToDying),
    Transition("Aim->HitReaction", Aim, HitReaction, 0.20, AimToHitReaction),
    Transition("HitReaction->Aim", HitReaction, Aim, 0.20, HitReactionToAim)
  ]

  /** Index of the Aim-to-Walk transition, whose label reads "Walk->Aim" as written. */
  const AimToWalkIndex := 12

  /** The table with the Aim-to-Walk transition labelled after its own endpoints. */
  const Transitions: seq<Transition> :=
    TransitionsAsWritten[AimToWalkIndex := TransitionsAsWritten[AimToWalkIndex].(name := "Aim->Walk")]

  datatype CombatWeaponKind = Pistol | Rifle

  datatype MachineInput = MachineInput(
    isWalking: bool,
    isJumping: bool,
    runFactor: real,
    hasGroundContact: bool,
    isAiming: bool,
    tossGrenade: bool,
    weaponKind: CombatWeaponKind,
    changeWeapon: bool,
    isDead: bool,
    shouldBeStunned: bool)

  /** "Has ended" facts of the clips, read from the previous tick before any parameter is written. */
  datatype ClipsEnded = ClipsEnded(
    jump: bool,
    land: bool,
    putBack: bool,
    grab: bool,
    tossGrenade: bool,
    hitReactionRifle: bool,
    hitReactionPistol: bool)

  datatype Parameter = Rule(fires: bool) | Weight(weight: real) | Index(index: nat)

  type ParameterTable = map<ParamKey, Parameter>

  /** Index of the weapon-kind input of the indexed blend nodes: Rifle first, Pistol second. */
  function WeaponIndex(kind: CombatWeaponKind): nat
  {
    match kind
    case Rifle => 0
    case Pistol => 1
  }

  /** True when the stun is over and the hit-reaction clip of the current weapon has ended. */
  function Recovered(input: MachineInput, ended: ClipsEnded): bool
  {
    var clipEnded := match input.weaponKind
      case Rifle => ended.hitReactionRifle
      case Pistol => ended.hitReactionPistol;
    !input.shouldBeStunned && clipEnded
  }

  /** The two names a blend node can read its weapon index from. */
  predicate IsWeaponKindKey(k: ParamKey)
  {
    k == IdleStateWeaponKind || k == WalkStateWeaponKind
  }

  /**
   * The parameter table `apply` writes each tick. The `set_parameter` calls are grouped by
   * concern; within a group each call is one map update, in the source's order, and the
   * groups are joined with right-biased union, so across the whole table a later write to a
   * name replaces an earlier one. `walkKey` is the name the run-adjusted walk index is
   * written under.
   */
  function ParametersWith(input: MachineInput, ended: ClipsEnded, walkKey: ParamKey): ParameterTable
  {
    LocomotionRules(input, ended) + WeaponChangeRules(input, ended) + CombatParameters(input, ended)
      + DyingRules(input) + FinalParameters(input, ended, walkKey)
  }

  /** Locomotion and aiming rules. */
  function LocomotionRules(input: MachineInput, ended: ClipsEnded): ParameterTable
  {
    map[]
      [IdleToWalk := Rule(input.isWalking)]
      [WalkToIdle := Rule(!input.isWalking)]
      [WalkToJump := Rule(input.isJumping)]
      [IdleToJump := Rule(input.isJumping)]
      [JumpToFall := Rule(ended.jump)]
      [WalkToFall := Rule(!input.hasGroundContact)]
      [IdleToFall := Rule(!input.hasGroundContact)]
      [FallToLand := Rule(input.hasGroundContact)]
      [LandToIdle := Rule(ended.land)]
      [IdleToAim := Rule(input.isAiming && input.hasGroundContact)]
      [WalkToAim := Rule(input.isAiming && input.hasGroundContact)]
      [AimToIdle := Rule(!input.isAiming || !input.hasGroundContact)]
      [AimToWalk := Rule(!input.isAiming || !input.hasGroundContact)]
  }

  /** Weapon-change rules. */
  function WeaponChangeRules(input: MachineInput, ended: ClipsEnded): ParameterTable
  {
    map[]
      [AimToPutBack := Rule(input.isAiming && input.changeWeapon)]
      [WalkToPutBack := Rule(input.changeWeapon)]
      [IdleToPutBack := Rule(input.changeWeapon)]
      [PutBackToIdle := Rule(!input.changeWeapon && ended.putBack)]
      [PutBackToWalk := Rule(!input.changeWeapon && input.isWalking && ended.putBack)]
      [PutBackToGrab := Rule(input.changeWeapon && ended.putBack)]
      [GrabToIdle := Rule(!input.changeWeapon && !input.isAiming && ended.grab)]
      [GrabToWalk := Rule(!input.changeWeapon && input.isWalking && !input.isAiming && ended.grab)]
      [GrabToAim := Rule(input.isAiming && ended.grab)]
  }

  /** Aim weights, the hit-reaction index and the hit-reaction rules. */
  function CombatParameters(input: MachineInput, ended: ClipsEnded): ParameterTable
  {
    var index := WeaponIndex(input.weaponKind);
    var recovered := Recovered(input, ended);
    map[]
      [PistolAimFactor := Weight(if input.weaponKind == Pistol then 1.0 else 0.0)]
      [RifleAimFactor := Weight(if input.weaponKind == Rifle then 1.0 else 0.0)]
      [HitReactionWeaponKind := Index(index)]
      [IdleToHitReaction := Rule(input.shouldBeStunned)]
      [WalkToHitReaction := Rule(input.shouldBeStunned)]
      [AimToHitReaction := Rule(input.shouldBeStunned)]
      [HitReactionToIdle := Rule(Recovered(input, ended))]
      [HitReactionToWalk := Rule(Recovered(input, ended))]
      [HitReactionToDying := Rule(input.isDead)]
      [HitReactionToAim := Rule(Recovered(input, ended) && input.isAiming)]
  }

  /** The death rules. */
  function DyingRules(input: MachineInput): ParameterTable
  {
    map[]
      [LandToDying := Rule(input.isDead)]
      [IdleToDying := Rule(input.isDead)]
      [FallToDying := Rule(input.isDead)]
      [WalkToDying := Rule(input.isDead)]
      [JumpToDying := Rule(input.isDead)]
      [AimToDying := Rule(input.isDead)]
      [TossGrenadeToDying := Rule(input.isDead)]
      [GrabToDying := Rule(input.isDead)]
      [PutBackToDying := Rule(input.isDead)]
  }

  /** The walk index, the grenade rules and the idle index, last. */
  function FinalParameters(input: MachineInput, ended: ClipsEnded, walkKey: ParamKey): ParameterTable
  {
    var index := WeaponIndex(input.weaponKind);
    map[]
      [walkKey := Index(index + if input.runFactor > 0.1 then 2 else 0)]
      [TossGrenadeToAim := Rule(!input.tossGrenade && ended.tossGrenade)]
      [AimToTossGrenade := Rule(input.tossGrenade && input.isAiming)]
      [IdleStateWeaponKind := Index(index)]
  }

  /** The table as the source writes it: the walk index lands on the idle state's name. */
  function ParametersAsWritten(input: MachineInput, ended: ClipsEnded): ParameterTable
  {
    ParametersWith(input, ended, WalkKeyAsWritten)
  }

  /** The table with the walk index under its own name. */
  function Parameters(input: MachineInput, ended: ClipsEnded): ParameterTable
  {
    ParametersWith(input, ended, WalkKey)
  }

  // ---------------------------------------------------------------------------------------
  // Transition firing

  /** A rule fires when its parameter is present and is a true `Rule`. */
  predicate Fires(params: ParameterTable, key: ParamKey)
  {
    key in params && params[key].Rule? && params[key].fires
  }

  predicate Enabled(t: Transition, s: AnimState, params: ParameterTable)
  {
    t.source == s && Fires(params, t.rule)
  }

  /**
   * The declaration-order scan from `from`: the index of the first transition leaving `s`
   * whose rule fires, or None when no such transition exists.
   */
  function FirstEnabledFrom(table: seq<Transition>, s: AnimState, params: ParameterTable, from: nat): (r: Option<nat>)
    requires from <= |table|
    ensures r.Some? ==> from <= r.value < |table| && Enabled(table[r.value], s, params)
    ensures r.Some? ==> forall j :: from <= j < r.value ==> !Enabled(table[j], s, params)
    ensures r.None? ==> forall j :: from <= j < |table| ==> !Enabled(table[j], s, params)
    decreases |table| - from
  {
    if from == |table| then None
    else if Enabled(table[from], s, params) then Some(from)
    else FirstEnabledFrom(table, s, params, from + 1)
  }

  /** The first transition of the whole table that leaves `s` and whose rule fires. */
  function FirstEnabled(s: AnimState, params: ParameterTable): (r: Option<nat>)
    ensures r.Some? ==> r.value < |Transitions| && Transitions[r.value].source == s && Fires(params, Transitions[r.value].rule)
    ensures r.None? <==> forall j :: 0 <= j < |Transitions| ==> !Enabled(Transitions[j], s, params)
  {
    FirstEnabledFrom(Transitions, s, params, 0)
  }

  /**
   * The state the layer moves to from `s` under `params`: the first enabled transition's
   * target. The layer moves along a declared transition exactly when some transition out of
   * `s` is enabled, and stays where it is otherwise.
   */
  function Step(s: AnimState, params: ParameterTable): (r: AnimState)
    ensures (exists j :: 0 <= j < |Transitions| && Enabled(Transitions[j], s, params)) ==> Edge(s, r)
    ensures (forall j :: 0 <= j < |Transitions| ==> !Enabled(Transitions[j], s, params)) ==> r == s
  {
    match FirstEnabled(s, params)
    case Some(i) => Transitions[i].target
    case None => s
  }

  /** There is a transition from `a` to `b` in the table. */
  predicate Edge(a: AnimState, b: AnimState)
  {
    exists i :: 0 <= i < |Transitions| && Transitions[i].source == a && Transitions[i].target == b
  }

  predicate IsPath(p: seq<AnimState>)
  {
    forall k :: 0 <= k < |p| - 1 ==> Edge(p[k], p[k + 1])
  }

  // ---------------------------------------------------------------------------------------
  // Pose nodes

  datatype ClipId =
    | IdleClip | IdlePistolClip | WalkClip | WalkPistolClip | RunClip | RunPistolClip
    | JumpClip | FallClip | LandClip | AimRifleClip | AimPistolClip | TossGrenadeClip
    | PutBackClip | GrabClip | DyingClip | HitReactionRifleClip | HitReactionPistolClip

  datatype PoseNode =
    | PlayClip(clip: ClipId)
    | BlendByIndex(key: ParamKey, inputs: seq<ClipId>)
    | BlendByWeight(weighted: seq<(ParamKey, ClipId)>)

  /** The pose node at the root of each state; `walkKey` is the walk node's index parameter. */
  function StateNode(s: AnimState, walkKey: ParamKey): PoseNode
  {
    match s
    case Idle => BlendByIndex(IdleStateWeaponKind, [IdleClip, IdlePistolClip])
    case Walk => BlendByIndex(walkKey, [WalkClip, WalkPistolClip, RunClip, RunPistolClip])
    case Aim => BlendByWeight([(RifleAimFactor, AimRifleClip), (PistolAimFactor, AimPistolClip)])
    case HitReaction => BlendByIndex(HitReactionWeaponKind, [HitReactionRifleClip, HitReactionPistolClip])
    case Jump => PlayClip(JumpClip)
    case Fall => PlayClip(FallClip)
    case Land => PlayClip(LandClip)
    case TossGrenade => PlayClip(TossGrenadeClip)
    case PutBack => PlayClip(PutBackClip)
    case Grab => PlayClip(GrabClip)
    case Dying => PlayClip(DyingClip)
  }

  /** The weapon kind a clip is made for, if any. */
  function ClipWeapon(c: ClipId): Option<CombatWeaponKind>
  {
    match c
    case IdleClip | WalkClip | RunClip | AimRifleClip | HitReactionRifleClip => Some(Rifle)
    case IdlePistolClip | WalkPistolClip | RunPistolClip | AimPistolClip | HitReactionPistolClip => Some(Pistol)
    case _ => None
  }

  predicate IsRunClip(c: ClipId)
  {
    c == RunClip || c == RunPistolClip
  }

  /** The input an indexed blend node settles on: the one the index parameter names. */
  function Selected(params: ParameterTable, key: ParamKey, inputs: seq<ClipId>): Option<ClipId>
  {
    if key in params && params[key].Index? && params[key].index < |inputs|
    then Some(inputs[params[key].index])
    else None
  }

  /** The weight parameter `key` is present and full. */
  predicate IsFull(params: ParameterTable, key: ParamKey)
  {
    key in params && params[key] == Weight(1.0)
  }

  /**
   * The clip a weighted blend node settles on: the one whose weight is full, the first such
   * if several; None when no weight is full.
   */
  function FullWeight(params: ParameterTable, weighted: seq<(ParamKey, ClipId)>): (r: Option<ClipId>)
    ensures r.Some? ==>
      exists i :: 0 <= i < |weighted| && IsFull(params, weighted[i].0) && weighted[i].1 == r.value &&
                  (forall j :: 0 <= j < i ==> !IsFull(params, weighted[j].0))
    ensures r.None? <==> forall i :: 0 <= i < |weighted| ==> !IsFull(params, weighted[i].0)
  {
    if |weighted| == 0 then None
    else if IsFull(params, weighted[0].0) then Some(weighted[0].1)
    else
      var r := FullWeight(params, weighted[1..]);
      assert forall i :: 1 <= i < |weighted| ==> weighted[i] == weighted[1..][i - 1];
      r
  }

  /** The clip a state's root node plays at rest under `params`. */
  function ActiveClip(s: AnimState, params: ParameterTable, walkKey: ParamKey): Option<ClipId>
  {
    match StateNode(s, walkKey)
    case PlayClip(c) => Some(c)
    case BlendByIndex(key, inputs) => Selected(params, key, inputs)
    case BlendByWeight(weighted) => FullWeight(params, weighted)
  }

  // ---------------------------------------------------------------------------------------
  // Clip settings made at setup

  datatype Signal = Signal(id: string, name: string, time: real)

  datatype ClipSettings = ClipSettings(looping: bool, speed: real, enabled: bool, signals: seq<Signal>)

  /** Settings of a clip nobody touches: the engine's defaults. */
  const Untouched := ClipSettings(true, 1.0, true, [])

  const GrabWeaponSignal := "4b80a4ac-b782-44c6-a6d6-cdead72f5369"
  const PutBackWeaponEndSignal := "a923cabd-da6a-43ca-85cc-861370b1669a"
  const TossGrenadeSignal := "ce07b80a-e099-4cc5-8361-43d6631f431c"

  /** The two hit-reaction clips, set up together with the hit-reaction state. */
  const HitReactionClips: set<ClipId> := {HitReactionRifleClip, HitReactionPistolClip}

  /**
   * The settings of each clip after setup; `putBackLength` is the put-back clip's length,
   * which places the put-back signal at the clip's end. The hit-reaction clips are set up
   * by `make_hit_reaction_state`, which is not part of this model: `hitReaction` stands for
   * whatever settings it leaves them with.
   */
  function Settings(c: ClipId, putBackLength: real, hitReaction: ClipId -> ClipSettings): ClipSettings
  {
    match c
    case IdlePistolClip => Untouched.(speed := 0.25)
    case JumpClip => Untouched.(enabled := false, looping := false)
    case LandClip => Untouched.(looping := false)
    case GrabClip =>
      Untouched.(looping := false, speed := 3.0, enabled := false,
                 signals := [Signal(GrabWeaponSignal, "GrabWeapon", 0.3)])
    case PutBackClip =>
      Untouched.(speed := 3.0, signals := [Signal(PutBackWeaponEndSignal, "PutBackWeapon", putBackLength)],
                 looping := false)
    case TossGrenadeClip =>
      Untouched.(speed := 1.5, signals := [Signal(TossGrenadeSignal, "TossGrenade", 1.7)],
                 enabled := false, looping := false)
    case DyingClip => Untouched.(enabled := false, looping := false)
    case HitReactionRifleClip => hitReaction(HitReactionRifleClip)
    case HitReactionPistolClip => hitReaction(HitReactionPistolClip)
    case _ => Untouched
  }

  /**
   * The clips whose "has ended" fact feeds a transition rule: the jump, land, put-back,
   * grab and toss-grenade clips, and the two hit-reaction clips behind `recovered`.
   */
  const RuleClips: set<ClipId> := {JumpClip, LandClip, PutBackClip, GrabClip, TossGrenadeClip} + HitReactionClips

  /**
   * Setup leaves every rule clip it configures itself playing once (a looping clip never
   * ends), plays the dying clip once, gives each of the three signalling clips one signal,
   * the three with pairwise different ids, puts the put-back signal at the clip's end, and
   * leaves every clip not named in the setup at the engine's defaults. The hit-reaction
   * clips keep whatever settings the hit-reaction state's setup gave them.
   */
  lemma ClipSetup(putBackLength: real, hitReaction: ClipId -> ClipSettings)
    ensures forall c :: c in RuleClips - HitReactionClips ==> !Settings(c, putBackLength, hitReaction).looping
    ensures !Settings(DyingClip, putBackLength, hitReaction).looping
    ensures forall c :: c in HitReactionClips ==> Settings(c, putBackLength, hitReaction) == hitReaction(c)
    ensures forall c :: c !in RuleClips && c != DyingClip && c != IdlePistolClip ==>
      Settings(c, putBackLength, hitReaction) == Untouched
    ensures forall c :: c !in HitReactionClips ==>
      |Settings(c, putBackLength, hitReaction).signals| == (if c in {GrabClip, PutBackClip, TossGrenadeClip} then 1 else 0)
    ensures Settings(PutBackClip, putBackLength, hitReaction).signals[0].time == putBackLength
    ensures var grab := Settings(GrabClip, putBackLength, hitReaction).signals[0].id;
      var putBack := Settings(PutBackClip, putBackLength, hitReaction).signals[0].id;
      var toss := Settings(TossGrenadeClip, putBackLength, hitReaction).signals[0].id;
      grab != putBack && grab != toss && putBack != toss
  {
  }

  // ---------------------------------------------------------------------------------------
  // What each name holds

  /** The group of `set_parameter` calls that writes each name. */
  datatype ParamGroup = LocomotionGroup | WeaponChangeGroup | CombatGroup | DyingGroup | FinalGroup

  function GroupOf(k: ParamKey): ParamGroup
  {
    if k <= AimToWalk then LocomotionGroup
    else if k <= GrabToAim then WeaponChangeGroup
    else if k <= HitReactionToAim then CombatGroup
    else if k <= PutBackToDying then DyingGroup
    else FinalGroup
  }

  /**
   * The value each name is meant to hold after `apply`, stated name by name: the reference
   * the written table is checked against.
   */
  function ValueOf(k: ParamKey, input: MachineInput, ended: ClipsEnded): Parameter
  {
    var index := WeaponIndex(input.weaponKind);
    var aimReady := input.isAiming && input.hasGroundContact;
    var recovered := Recovered(input, ended);
    if k == IdleToWalk then Rule(input.isWalking)
    else if k == WalkToIdle then Rule(!input.isWalking)
    else if k == WalkToJump || k == IdleToJump then Rule(input.isJumping)
    else if k == JumpToFall then Rule(ended.jump)
    else if k == WalkToFall || k == IdleToFall then Rule(!input.hasGroundContact)
    else if k == FallToLand then Rule(input.hasGroundContact)
    else if k == LandToIdle then Rule(ended.land)
    else if k == IdleToAim || k == WalkToAim then Rule(aimReady)
    else if k == AimToIdle || k == AimToWalk then Rule(!aimReady)
    else if k == AimToPutBack then Rule(input.isAiming && input.changeWeapon)
    else if k == WalkToPutBack || k == IdleToPutBack then Rule(input.changeWeapon)
    else if k == PutBackToIdle then Rule(!input.changeWeapon && ended.putBack)
    else if k == PutBackToWalk then Rule(!input.changeWeapon && input.isWalking && ended.putBack)
    else if k == PutBackToGrab then Rule(input.changeWeapon && ended.putBack)
    else if k == GrabToIdle then Rule(!input.changeWeapon && !input.isAiming && ended.grab)
    else if k == GrabToWalk then Rule(!input.changeWeapon && input.isWalking && !input.isAiming && ended.grab)
    else if k == GrabToAim then Rule(input.isAiming && ended.grab)
    else if k == PistolAimFactor then Weight(if input.weaponKind == Pistol then 1.0 else 0.0)
    else if k == RifleAimFactor then Weight(if input.weaponKind == Rifle then 1.0 else 0.0)
    else if k == HitReactionWeaponKind || k == IdleStateWeaponKind then Index(index)
    else if k == IdleToHitReaction || k == WalkToHitReaction || k == AimToHitReaction then Rule(input.shouldBeStunned)
    else if k == HitReactionToIdle || k == HitReactionToWalk then Rule(recovered)
    else if k == HitReactionToAim then Rule(recovered && input.isAiming)
    else if k == WalkStateWeaponKind then Index(index + if input.runFactor > 0.1 then 2 else 0)
    else if k == TossGrenadeToAim then Rule(!input.tossGrenade && ended.tossGrenade)
    else if k == AimToTossGrenade then Rule(input.tossGrenade && input.isAiming)
    else Rule(input.isDead)
  }

  /** The locomotion group writes exactly its own names, each with its meant value. */
  lemma LocomotionWrites(input: MachineInput, ended: ClipsEnded, k: ParamKey)
    ensures k in LocomotionRules(input, ended) <==> GroupOf(k) == LocomotionGroup
    ensures k in LocomotionRules(input, ended) ==> LocomotionRules(input, ended)[k] == ValueOf(k, input, ended)
  {}

  /** The weapon-change group writes exactly its own names, each with its meant value. */
  lemma WeaponChangeWrites(input: MachineInput, ended: ClipsEnded, k: ParamKey)
    ensures k in WeaponChangeRules(input, ended) <==> GroupOf(k) == WeaponChangeGroup
    ensures k in WeaponChangeRules(input, ended) ==> WeaponChangeRules(input, ended)[k] == ValueOf(k, input, ended)
  {}

  /** The combat group writes exactly its own names, each with its meant value. */
  lemma CombatWrites(input: MachineInput, ended: ClipsEnded, k: ParamKey)
    ensures k in CombatParameters(input, ended) <==> GroupOf(k) == CombatGroup
    ensures k in CombatParameters(input, ended) ==> CombatParameters(input, ended)[k] == ValueOf(k, input, ended)
  {}

  /** The death group writes exactly its own names, each with its meant value. */
  lemma DyingWrites(input: MachineInput, ended: ClipsEnded, k: ParamKey)
    ensures k in DyingRules(input) <==> GroupOf(k) == DyingGroup
    ensures k in DyingRules(input) ==> DyingRules(input)[k] == ValueOf(k, input, ended)
  {}

  /**
   * The final group writes the grenade rules and both weapon-kind names. Under the idle name
   * the idle index is written last, so the run-adjusted walk index written there first is lost.
   */
  lemma FinalWrites(input: MachineInput, ended: ClipsEnded, walkKey: ParamKey, k: ParamKey)
    requires IsWeaponKindKey(walkKey)
    ensures k in FinalParameters(input, ended, walkKey) <==>
      GroupOf(k) == FinalGroup && (k != WalkStateWeaponKind || walkKey == WalkStateWeaponKind)
    ensures k in FinalParameters(input, ended, walkKey) ==>
      FinalParameters(input, ended, walkKey)[k] == ValueOf(k, input, ended)
  {}

  /**
   * `p` holds every name with the value it is meant to, except that the walk state's own
   * name is missing when the walk index is written under the idle name.
   */
  predicate HoldsMeant(p: ParameterTable, input: MachineInput, ended: ClipsEnded, walkKey: ParamKey)
  {
    forall k :: (k in p <==> k != WalkStateWeaponKind || walkKey == WalkStateWeaponKind)
      && (k in p ==> p[k] == ValueOf(k, input, ended))
  }

  /**
   * No later write clobbers an earlier name except the walk index under the idle name: the
   * table `apply` writes holds the meant values.
   */
  lemma ParametersHoldMeant(input: MachineInput, ended: ClipsEnded, walkKey: ParamKey)
    requires IsWeaponKindKey(walkKey)
    ensures HoldsMeant(ParametersWith(input, ended, walkKey), input, ended, walkKey)
  {
    var p := ParametersWith(input, ended, walkKey);
    forall k
      ensures (k in p <==> k != WalkStateWeaponKind || walkKey == WalkStateWeaponKind)
      ensures k in p ==> p[k] == ValueOf(k, input, ended)
    {
      LocomotionWrites(input, ended, k);
      WeaponChangeWrites(input, ended, k);
      CombatWrites(input, ended, k);
      DyingWrites(input, ended, k);
      FinalWrites(input, ended, walkKey, k);
    }
  }

  // ---------------------------------------------------------------------------------------
  // Properties of the guards
  //
  // Each property is a predicate on a table. It is shown first for any table holding the
  // meant values, then for the table `apply` writes.

  /**
   * Walking and idling, falling and landing are decided by complementary rules, and the rule
   * into Fall is the same from Idle as from Walk.
   */
  predicate LocomotionComplementary(p: ParameterTable, input: MachineInput)
  {
    && (Fires(p, IdleToWalk) <==> input.isWalking)
    && (Fires(p, WalkToIdle) <==> !Fires(p, IdleToWalk))
    && (Fires(p, FallToLand) <==> input.hasGroundContact)
    && (Fires(p, WalkToFall) <==> !Fires(p, FallToLand))
    && (Fires(p, IdleToFall) <==> Fires(p, WalkToFall))
  }

  /**
   * Aiming starts from Idle and from Walk under one rule, aiming with ground contact, and
   * both rules out of Aim are its negation.
   */
  predicate AimComplementary(p: ParameterTable, input: MachineInput)
  {
    && (Fires(p, IdleToAim) <==> input.isAiming && input.hasGroundContact)
    && (Fires(p, WalkToAim) <==> Fires(p, IdleToAim))
    && (Fires(p, AimToIdle) <==> !Fires(p, IdleToAim))
    && (Fires(p, AimToWalk) <==> Fires(p, AimToIdle))
  }

  /**
   * The aim blend gives full weight to exactly one pose, the current weapon's, and none to
   * the other; the hit-reaction index is 0 for the rifle and 1 for the pistol.
   */
  predicate WeaponSelectors(p: ParameterTable, input: MachineInput)
  {
    && RifleAimFactor in p && PistolAimFactor in p && HitReactionWeaponKind in p
    && (p[RifleAimFactor] == Weight(1.0) <==> input.weaponKind == Rifle)
    && (p[PistolAimFactor] == Weight(1.0) <==> input.weaponKind == Pistol)
    && (p[RifleAimFactor] == Weight(1.0) <==> p[PistolAimFactor] == Weight(0.0))
    && (p[PistolAimFactor] == Weight(1.0) <==> p[RifleAimFactor] == Weight(0.0))
    && (p[HitReactionWeaponKind] == Index(0) <==> input.weaponKind == Rifle)
    && (p[HitReactionWeaponKind] == Index(1) <==> input.weaponKind == Pistol)
  }

  /**
   * A stunned character enters the hit reaction from Idle, Walk and Aim, and while stunned
   * no rule out of it fires.
   */
  predicate StunHolds(p: ParameterTable, input: MachineInput)
  {
    && (Fires(p, IdleToHitReaction) <==> input.shouldBeStunned)
    && (Fires(p, WalkToHitReaction) <==> input.shouldBeStunned)
    && (Fires(p, AimToHitReaction) <==> input.shouldBeStunned)
    && (input.shouldBeStunned ==>
          !Fires(p, HitReactionToIdle) && !Fires(p, HitReactionToWalk) && !Fires(p, HitReactionToAim))
  }

  /**
   * The hit reaction is left to Idle or Walk once recovered, which needs the current weapon's
   * hit-reaction clip to have ended, and to Aim only when also aiming: the rule back to Aim
   * never fires without the rule back to Idle.
   */
  predicate RecoveryOrdered(p: ParameterTable, input: MachineInput, ended: ClipsEnded)
  {
    var clipEnded := if input.weaponKind == Rifle then ended.hitReactionRifle else ended.hitReactionPistol;
    && (Fires(p, HitReactionToIdle) <==> !input.shouldBeStunned && clipEnded)
    && (Fires(p, HitReactionToWalk) <==> Fires(p, HitReactionToIdle))
    && (Fires(p, HitReactionToAim) <==> Fires(p, HitReactionToIdle) && input.isAiming)
  }

  /** Every rule into Dying is the death flag. */
  predicate DeathRules(p: ParameterTable, input: MachineInput)
  {
    forall i :: 0 <= i < |Transitions| && Transitions[i].target == Dying ==>
      (Fires(p, Transitions[i].rule) <==> input.isDead)
  }

  lemma MeantLocomotionComplementary(p: ParameterTable, input: MachineInput, ended: ClipsEnded, walkKey: ParamKey)
    requires HoldsMeant(p, input, ended, walkKey)
    ensures LocomotionComplementary(p, input)
  {}

  lemma MeantAimComplementary(p: ParameterTable, input: MachineInput, ended: ClipsEnded, walkKey: ParamKey)
    requires HoldsMeant(p, input, ended, walkKey)
    ensures AimComplementary(p, input)
  {}

  lemma MeantWeaponSelectors(p: ParameterTable, input: MachineInput, ended: ClipsEnded, walkKey: ParamKey)
    requires HoldsMeant(p, input, ended, walkKey)
    ensures WeaponSelectors(p, input)
  {}

  lemma MeantStunHolds(p: ParameterTable, input: MachineInput, ended: ClipsEnded, walkKey: ParamKey)
    requires HoldsMeant(p, input, ended, walkKey)
    ensures StunHolds(p, input)
  {}

  lemma MeantRecoveryOrdered(p: ParameterTable, input: MachineInput, ended: ClipsEnded, walkKey: ParamKey)
    requires HoldsMeant(p, input, ended, walkKey)
    ensures RecoveryOrdered(p, input, ended)
  {}

  /** The rules into Dying are the nine death rules and the hit reaction's. */
  lemma DeathTransitionRules()
    ensures forall i :: 0 <= i < |Transitions| && Transitions[i].target == Dying ==>
      GroupOf(Transitions[i].rule) == DyingGroup || Transitions[i].rule == HitReactionToDying
  {}

  lemma MeantDeathRules(p: ParameterTable, input: MachineInput, ended: ClipsEnded, walkKey: ParamKey)
    requires HoldsMeant(p, input, ended, walkKey)
    ensures DeathRules(p, input)
  {
    DeathTransitionRules();
    forall i | 0 <= i < |Transitions| && Transitions[i].target == Dying
      ensures Fires(p, Transitions[i].rule) <==> input.isDead
    {
      var k := Transitions[i].rule;
      assert GroupOf(k) == DyingGroup || k == HitReactionToDying;
      assert k in p && p[k] == ValueOf(k, input, ended);
    }
  }

  /** The guards of the table `apply` writes, under either name for the walk index. */
  lemma GuardsOfApply(input: MachineInput, ended: ClipsEnded, walkKey: ParamKey)
    requires IsWeaponKindKey(walkKey)
    ensures var p := ParametersWith(input, ended, walkKey);
      && LocomotionComplementary(p, input)
      && AimComplementary(p, input)
      && WeaponSelectors(p, input)
      && StunHolds(p, input)
      && RecoveryOrdered(p, input, ended)
      && DeathRules(p, input)
  {
    ParametersHoldMeant(input, ended, walkKey);
    var p := ParametersWith(input, ended, walkKey);
    MeantLocomotionComplementary(p, input, ended, walkKey);
    MeantAimComplementary(p, input, ended, walkKey);
    MeantWeaponSelectors(p, input, ended, walkKey);
    MeantStunHolds(p, input, ended, walkKey);
    MeantRecoveryOrdered(p, input, ended, walkKey);
    MeantDeathRules(ParametersWith(input, ended, walkKey), input, ended, walkKey);
  }

  // ---------------------------------------------------------------------------------------
  // Properties of the transition table

  /** Dying has no way out: no transition leaves it, so the layer stays there whatever fires. */
  lemma DyingIsAbsorbing(p: ParameterTable)
    ensures forall i :: 0 <= i < |Transitions| ==> Transitions[i].source != Dying
    ensures Step(Dying, p) == Dying
  {
    assert forall i :: 0 <= i < |Transitions| ==> Transitions[i].source != Dying;
  }

  /** For every state but Dying, the transition that takes it to Dying. */
  function DeathTransition(s: AnimState): (i: nat)
    requires s != Dying
    ensures i < |Transitions| && Transitions[i].source == s && Transitions[i].target == Dying
  {
    match s
    case Land => 24
    case Fall => 25
    case Idle => 26
    case Walk => 27
    case Jump => 28
    case Aim => 29
    case TossGrenade => 30
    case Grab => 31
    case PutBack => 32
    case HitReaction => 37
  }

  /** A transition the scan reaches first: enabled, and no earlier transition from `s` enabled. */
  lemma FirstEnabledIs(s: AnimState, p: ParameterTable, i: nat)
    requires i < |Transitions| && Enabled(Transitions[i], s, p)
    requires forall j :: 0 <= j < i ==> !Enabled(Transitions[j], s, p)
    ensures FirstEnabled(s, p) == Some(i)
    ensures Step(s, p) == Transitions[i].target
  {
  }

  /** An idle character whose walk rule fires starts walking: no transition out of Idle precedes it. */
  lemma IdleStartsWalking(p: ParameterTable)
    requires Fires(p, IdleToWalk)
    ensures Step(Idle, p) == Walk
  {
    FirstEnabledIs(Idle, p, 2);
  }

  /**
   * Walk->Idle is declared first, so when it fires the layer goes to Idle whatever else
   * fires, the death rule included.
   */
  lemma WalkStopsFirst(p: ParameterTable)
    requires Fires(p, WalkToIdle)
    ensures Step(Walk, p) == Idle
  {
    FirstEnabledIs(Walk, p, 0);
  }

  /**
   * When the two rules out of Aim agree, Aim never steps to Walk: Aim->Idle is declared
   * first and wins whenever Aim->Walk could fire.
   */
  lemma AimNeverStepsToWalk(p: ParameterTable)
    requires Fires(p, AimToIdle) <==> Fires(p, AimToWalk)
    ensures Step(Aim, p) != Walk
  {
    assert forall j :: 0 <= j < |Transitions| && Transitions[j].source == Aim && Transitions[j].target == Walk ==>
      j == AimToWalkIndex;
    if Fires(p, AimToIdle) {
      assert Enabled(Transitions[11], Aim, p);
    } else {
      assert !Enabled(Transitions[AimToWalkIndex], Aim, p);
    }
  }

  // ---------------------------------------------------------------------------------------
  // Properties of the pose nodes

  /** Under the meant values, the idle and hit-reaction nodes play the current weapon's clip. */
  lemma MeantIndexedPoses(p: ParameterTable, input: MachineInput, ended: ClipsEnded, walkKey: ParamKey)
    requires HoldsMeant(p, input, ended, walkKey)
    ensures ActiveClip(Idle, p, walkKey).Some? && ClipWeapon(ActiveClip(Idle, p, walkKey).value) == Some(input.weaponKind)
    ensures ActiveClip(HitReaction, p, walkKey).Some?
    ensures ClipWeapon(ActiveClip(HitReaction, p, walkKey).value) == Some(input.weaponKind)
  {
    assert IdleStateWeaponKind in p && HitReactionWeaponKind in p;
  }

  /** Under the meant values, the aim node gives the pose of the current weapon. */
  lemma MeantAimPose(p: ParameterTable, input: MachineInput, ended: ClipsEnded, walkKey: ParamKey)
    requires HoldsMeant(p, input, ended, walkKey)
    ensures ActiveClip(Aim, p, walkKey).Some? && ClipWeapon(ActiveClip(Aim, p, walkKey).value) == Some(input.weaponKind)
  {
    var weighted := [(RifleAimFactor, AimRifleClip), (PistolAimFactor, AimPistolClip)];
    assert StateNode(Aim, walkKey) == BlendByWeight(weighted);
    assert IsFull(p, RifleAimFactor) <==> input.weaponKind == Rifle;
    assert IsFull(p, PistolAimFactor) <==> input.weaponKind == Pistol;
    assert IsFull(p, weighted[WeaponIndex(input.weaponKind)].0);
    var r := FullWeight(p, weighted);
    var i :| 0 <= i < |weighted| && IsFull(p, weighted[i].0) && weighted[i].1 == r.value;
    assert i == WeaponIndex(input.weaponKind);
  }

  /**
   * Under the meant values the walk node plays the current weapon's clip. With the walk
   * index under its own name it runs exactly when the run factor exceeds 0.1; written under
   * the idle name it never runs.
   */
  lemma MeantWalkPose(p: ParameterTable, input: MachineInput, ended: ClipsEnded, walkKey: ParamKey)
    requires HoldsMeant(p, input, ended, walkKey) && IsWeaponKindKey(walkKey)
    ensures ActiveClip(Walk, p, walkKey).Some? && ClipWeapon(ActiveClip(Walk, p, walkKey).value) == Some(input.weaponKind)
    ensures walkKey == WalkStateWeaponKind ==>
      (IsRunClip(ActiveClip(Walk, p, walkKey).value) <==> input.runFactor > 0.1)
    ensures walkKey == IdleStateWeaponKind ==> !IsRunClip(ActiveClip(Walk, p, walkKey).value)
  {
    assert walkKey in p;
  }

  /**
   * With the walk index under its own name, every weapon-dependent state plays the current
   * weapon's clip, and the walk node runs exactly when the run factor exceeds 0.1.
   */
  lemma PoseFollowsWeapon(input: MachineInput, ended: ClipsEnded)
    ensures var p := Parameters(input, ended);
      && ActiveClip(Idle, p, WalkKey).Some? && ClipWeapon(ActiveClip(Idle, p, WalkKey).value) == Some(input.weaponKind)
      && ActiveClip(Aim, p, WalkKey).Some? && ClipWeapon(ActiveClip(Aim, p, WalkKey).value) == Some(input.weaponKind)
      && ActiveClip(HitReaction, p, WalkKey).Some?
      && ClipWeapon(ActiveClip(HitReaction, p, WalkKey).value) == Some(input.weaponKind)
      && ActiveClip(Walk, p, WalkKey).Some? && ClipWeapon(ActiveClip(Walk, p, WalkKey).value) == Some(input.weaponKind)
      && (IsRunClip(ActiveClip(Walk, p, WalkKey).value) <==> input.runFactor > 0.1)
  {
    var p := Parameters(input, ended);
    ParametersHoldMeant(input, ended, WalkKey);
    MeantIndexedPoses(p, input, ended, WalkKey);
    MeantAimPose(p, input, ended, WalkKey);
    MeantWalkPose(p, input, ended, WalkKey);
  }

  /**
   * As written, the run-adjusted walk index lands on the idle name and is overwritten by the
   * idle index in the same tick: the walk state's name is never written, the shared name
   * only ever holds 0 or 1, and the walk node never plays a run clip.
   */
  lemma WalkNeverRunsAsWritten(input: MachineInput, ended: ClipsEnded)
    ensures var p := ParametersAsWritten(input, ended);
      && WalkStateWeaponKind !in p
      && IdleStateWeaponKind in p && p[IdleStateWeaponKind] in {Index(0), Index(1)}
      && ActiveClip(Walk, p, WalkKeyAsWritten).Some?
      && !IsRunClip(ActiveClip(Walk, p, WalkKeyAsWritten).value)
  {
    var p := ParametersAsWritten(input, ended);
    ParametersHoldMeant(input, ended, WalkKeyAsWritten);
    MeantWalkPose(p, input, ended, WalkKeyAsWritten);
  }

  /**
   * The running-rifle case at the level of parameter tables: any table holding the values the
   * as-written code means plays the walk clip, and any holding the corrected values plays the
   * run clip. `RunningRifleAsWritten` applies it to the tables `apply` writes.
   */
  lemma MeantRunningRifle(written: ParameterTable, corrected: ParameterTable, input: MachineInput, ended: ClipsEnded)
    requires HoldsMeant(written, input, ended, WalkKeyAsWritten) && HoldsMeant(corrected, input, ended, WalkKey)
    requires input.weaponKind == Rifle && input.runFactor > 0.1
    ensures ActiveClip(Walk, written, WalkKeyAsWritten) == Some(WalkClip)
    ensures ActiveClip(Walk, corrected, WalkKey) == Some(RunClip)
  {
    assert written[IdleStateWeaponKind] == Index(0);
    assert corrected[WalkStateWeaponKind] == Index(2);
  }

  /** Any running rifle holder: as written the walk node plays the walk clip, corrected the run clip. */
  lemma RunningRifleAsWritten(input: MachineInput, ended: ClipsEnded)
    requires input.weaponKind == Rifle && input.runFactor > 0.1
    ensures ActiveClip(Walk, ParametersAsWritten(input, ended), WalkKeyAsWritten) == Some(WalkClip)
    ensures ActiveClip(Walk, Parameters(input, ended), WalkKey) == Some(RunClip)
  {
    ParametersHoldMeant(input, ended, WalkKeyAsWritten);
    ParametersHoldMeant(input, ended, WalkKey);
    MeantRunningRifle(ParametersAsWritten(input, ended), Parameters(input, ended), input, ended);
  }

  /**
   * How the layer moves under the table `apply` writes: a walking idle character starts
   * walking; a walking character that stops goes to Idle even when dead, Walk->Idle being
   * declared before Walk->Dying; Aim never goes straight to Walk; Dying is never left.
   */
  lemma StepsOfApply(input: MachineInput, ended: ClipsEnded, walkKey: ParamKey)
    requires IsWeaponKindKey(walkKey)
    ensures var p := ParametersWith(input, ended, walkKey);
      && (input.isWalking ==> Step(Idle, p) == Walk)
      && (!input.isWalking ==> Step(Walk, p) == Idle)
      && Step(Aim, p) != Walk
      && Step(Dying, p) == Dying
  {
    var p := ParametersWith(input, ended, walkKey);
    ParametersHoldMeant(input, ended, walkKey);
    MeantLocomotionComplementary(p, input, ended, walkKey);
    MeantAimComplementary(p, input, ended, walkKey);
    if input.isWalking {
      IdleStartsWalking(p);
    } else {
      WalkStopsFirst(p);
    }
    AimNeverStepsToWalk(p);
    DyingIsAbsorbing(p);
  }

  // ---------------------------------------------------------------------------------------
  // Reachability and labels

  /** Each entry of the table is an edge of the state graph. */
  lemma EdgeAt(i: nat)
    requires i < |Transitions|
    ensures Edge(Transitions[i].source, Transitions[i].target)
  {}

  /** Number of transitions on the shortest route from the entry state. */
  function Depth(s: AnimState): nat
  {
    match s
    case Idle => 0
    case Land | TossGrenade | Grab => 2
    case _ => 1
  }

  /** The state one step nearer the entry on the route `PathTo` takes. */
  function Parent(s: AnimState): (r: AnimState)
    requires s != EntryState
    ensures Depth(r) + 1 == Depth(s)
  {
    match s
    case Land => Fall
    case TossGrenade => Aim
    case Grab => PutBack
    case _ => Idle
  }

  /** Every state but the entry state has a declared transition into it from its parent. */
  lemma ParentEdge(s: AnimState)
    requires s != EntryState
    ensures Edge(Parent(s), s)
  {
    match s
    case Land => EdgeAt(4);
    case TossGrenade => EdgeAt(13);
    case Grab => EdgeAt(20);
    case _ => EntryEdge(s);
  }

  /** The states one step from the entry state, with the transition that leads there. */
  lemma EntryEdge(s: AnimState)
    requires Depth(s) == 1
    ensures Edge(EntryState, s)
  {
    match s
    case Walk => EdgeAt(2);
    case Jump => EdgeAt(3);
    case Fall => EdgeAt(8);
    case Aim => EdgeAt(9);
    case PutBack => EdgeAt(17);
    case Dying => EdgeAt(26);
    case HitReaction => EdgeAt(33);
  }

  /** A path from the entry state to `s` along declared transitions: every state is reachable. */
  function PathTo(s: AnimState): (path: seq<AnimState>)
    ensures |path| == Depth(s) + 1 && path[0] == EntryState && path[|path| - 1] == s
    ensures IsPath(path)
    decreases Depth(s)
  {
    if s == EntryState then [s]
    else
      ParentEdge(s);
      var prefix := PathTo(Parent(s));
      assert forall k :: 0 <= k < |prefix| ==> (prefix + [s])[k] == prefix[k];
      prefix + [s]
  }

  /** As written, two different transitions carry the label "Walk->Aim". */
  lemma DuplicateLabelAsWritten()
    ensures TransitionsAsWritten[10].name == TransitionsAsWritten[AimToWalkIndex].name == "Walk->Aim"
    ensures TransitionsAsWritten[10].source == Walk && TransitionsAsWritten[10].target == Aim
    ensures TransitionsAsWritten[AimToWalkIndex].source == Aim && TransitionsAsWritten[AimToWalkIndex].target == Walk
  {}

  /** Relabelled, the Aim->Walk transition has a label no other transition carries, and nothing but that label changed. */
  lemma LabelsUnique()
    ensures Transitions[AimToWalkIndex].name == "Aim->Walk"
    ensures forall j :: 0 <= j < |Transitions| && j != AimToWalkIndex ==>
      Transitions[j].name != Transitions[AimToWalkIndex].name
    ensures |Transitions| == |TransitionsAsWritten|
    ensures forall i :: 0 <= i < |Transitions| ==>
      Transitions[i].(name := "") == TransitionsAsWritten[i].(name := "")
  {}
}
