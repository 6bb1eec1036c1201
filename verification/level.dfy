/**
 * The level: its characters, weapons, items and projectiles kept in pools, the spawn
 * points and death zones found in the map, and the handlers that react to game messages.
 * Positions come from the physics world and are fields here; distances are a parameter.
 */
module Levels {
  import opened Common
  import opened Pools

  // ---------------------------------------------------------------------------------------
  // Entities

  datatype WeaponKind = M4 | Ak47 | PlasmaRifle

  datatype ItemKind = Medkit | Plasma | Ak47Ammo | M4Ammo | Ak47 | PlasmaGun | M4 | RocketLauncher

  /** Bot kinds are not part of this model; a number stands for one. */
  type BotKind = nat

  datatype ActorKind = PlayerActor | BotActor

  /**
   * A character: what it is, where its body is, its health, the handles of the weapons it
   * carries, and the point (with the time) a bot was last told to look at.
   */
  datatype Actor = Actor(kind: ActorKind, position: Point, health: real, weapons: seq<Handle>,
                         pointOfInterest: Option<(Point, real)>)

  datatype Weapon = Weapon(kind: WeaponKind, owner: Handle, ammo: nat)

  datatype Item = Item(kind: ItemKind, position: Point, lifetime: Option<real>, pickedUp: bool)

  /** A projectile remembers the weapon that fired it. */
  datatype Projectile = Projectile(owner: Handle)

  /** An axis-aligned box, bounds included. */
  datatype Aabb = Aabb(min: Point, max: Point)

  datatype Level = Level(
    player: Handle,
    actors: Pool<Actor>,
    weapons: Pool<Weapon>,
    items: Pool<Item>,
    projectiles: Pool<Projectile>,
    spawnPoints: seq<Point>,
    deathZones: seq<Aabb>)

  datatype Message =
    | GiveNewWeapon(actor: Handle, weaponKind: WeaponKind)
    | AddBot(botKind: BotKind, position: Point)
    | RemoveActor(actor: Handle)
    | GiveItem(actor: Handle, itemKind: ItemKind)
    | PickUpItem(actor: Handle, item: Handle)
    | ShootWeapon(weapon: Handle)
    | CreateProjectile(owner: Handle)
    | ShowWeapon(weapon: Handle, state: bool)
    | SpawnBot(botKind: BotKind)
    | DamageActor(actor: Handle, who: Handle, amount: real)
    | CreateEffect(position: Point)
    | SpawnPlayer
    | SpawnItem(itemKind: ItemKind, position: Point, adjustHeight: bool, lifetime: Option<real>)
    | PlaySound(path: string, position: Point, gain: real, rolloffFactor: real, radius: real)
    | EndMatch
    | OtherMessage

  const DropLifetime: real := 20.0
  const MedkitHealth: real := 20.0
  const AmmoPerPickup: nat := 200
  const DeathZoneDamage: real := 99999.0
  const PickupSoundPath := "data/sounds/item_pickup.ogg"

  /** Every weapon handle the character carries names a live weapon. */
  predicate Armed(level: Level, a: Actor)
  {
    forall i :: 0 <= i < |a.weapons| ==> Contains(level.weapons, a.weapons[i])
  }

  predicate Distinct(hs: seq<Handle>)
  {
    forall i, j :: 0 <= i < j < |hs| ==> hs[i] != hs[j]
  }

  /** Every live slot of `before` is still live in `after`, which may have grown. */
  predicate KeepsLive<T>(before: Pool<T>, after: Pool<T>)
  {
    && |after.slots| >= |before.slots|
    && forall i :: 0 <= i < |before.slots| && before.slots[i].Some? ==> after.slots[i].Some?
  }

  /**
   * `after` only adds to `before`: nothing live was freed, the player is the same and the
   * map's spawn points and death zones are as they were.
   */
  predicate Grows(before: Level, after: Level)
  {
    && KeepsLive(before.actors, after.actors) && KeepsLive(before.weapons, after.weapons)
    && KeepsLive(before.items, after.items) && KeepsLive(before.projectiles, after.projectiles)
    && after.player == before.player
    && after.spawnPoints == before.spawnPoints && after.deathZones == before.deathZones
  }

  // ---------------------------------------------------------------------------------------
  // Removing weapons and characters

  /** The projectile with its owner reset when that owner is the weapon being removed. */
  function ResetOwner(w: Handle): Projectile -> Projectile
  {
    (p: Projectile) => if p.owner == w then Projectile(NoHandle) else p
  }

  /**
   * `after` is `before` with every projectile fired by a weapon in `gone` left without an
   * owner, and every other projectile as it was.
   */
  predicate OwnersReset(before: Pool<Projectile>, after: Pool<Projectile>, gone: seq<Handle>)
  {
    && |after.slots| == |before.slots|
    && forall i :: 0 <= i < |before.slots| ==>
         after.slots[i] == (if before.slots[i].Some? && before.slots[i].value.owner in gone
                            then Some(Projectile(NoHandle)) else before.slots[i])
  }

  /** `after` is `before` with the weapons in `gone` freed and every other slot as it was. */
  predicate FreedExactly(before: Pool<Weapon>, after: Pool<Weapon>, gone: seq<Handle>)
  {
    && |after.slots| == |before.slots|
    && forall i :: 0 <= i < |before.slots| ==>
         after.slots[i] == (if Slot(i) in gone then None else before.slots[i])
  }

  /**
   * Frees a weapon. Projectiles it fired lose their owner, since the handle is about to
   * dangle; no other projectile, weapon or entity changes.
   */
  function RemoveWeapon(level: Level, w: Handle): (r: Level)
    requires Contains(level.weapons, w)
    ensures r == level.(weapons := r.weapons, projectiles := r.projectiles)
    ensures !Contains(r.weapons, w)
    ensures FreedExactly(level.weapons, r.weapons, [w])
    ensures OwnersReset(level.projectiles, r.projectiles, [w])
  {
    level.(projectiles := MapPool(level.projectiles, ResetOwner(w)), weapons := Free(level.weapons, w))
  }

  /** The item a dropped weapon leaves behind. */
  function DropKind(k: WeaponKind): ItemKind
  {
    match k
    case M4 => ItemKind.M4
    case Ak47 => ItemKind.Ak47
    case PlasmaRifle => PlasmaGun
  }

  function DroppedItem(k: WeaponKind, at: Point): Item
  {
    Item(DropKind(k), at, Some(DropLifetime), false)
  }

  /**
   * Drops the weapons `ws` one after another: each leaves a temporary item of its kind at
   * `at`, then is removed. Only weapons, items and projectiles change.
   */
  function DropWeapons(level: Level, ws: seq<Handle>, at: Point): (r: Level)
    requires forall i :: 0 <= i < |ws| ==> Contains(level.weapons, ws[i])
    requires Distinct(ws)
    ensures r == level.(weapons := r.weapons, items := r.items, projectiles := r.projectiles)
    decreases |ws|
  {
    if |ws| == 0 then level
    else
      var next := DropFirst(level, ws[0], at);
      DropFirstKeepsRest(level, ws, at);
      DropWeapons(next, ws[1..], at)
  }

  /** One step of `DropWeapons`: the item for `w`, then the removal of `w`. */
  function DropFirst(level: Level, w: Handle, at: Point): (r: Level)
    requires Contains(level.weapons, w)
    ensures r == level.(weapons := r.weapons, items := r.items, projectiles := r.projectiles)
    ensures FreedExactly(level.weapons, r.weapons, [w])
    ensures OwnersReset(level.projectiles, r.projectiles, [w])
    ensures r.items.slots == level.items.slots + [Some(DroppedItem(Get(level.weapons, w).kind, at))]
  {
    RemoveWeapon(level.(items := Spawn(level.items, DroppedItem(Get(level.weapons, w).kind, at)).0), w)
  }

  /** After the first weapon is dropped, the others are still there, unchanged. */
  lemma DropFirstKeepsRest(level: Level, ws: seq<Handle>, at: Point)
    requires forall i :: 0 <= i < |ws| ==> Contains(level.weapons, ws[i])
    requires Distinct(ws) && |ws| > 0
    ensures forall i :: 0 <= i < |ws| - 1 ==> ws[1..][i] == ws[i + 1] != ws[0]
    ensures forall i :: 0 <= i < |ws| - 1 ==>
      Contains(DropFirst(level, ws[0], at).weapons, ws[1..][i]) &&
      Get(DropFirst(level, ws[0], at).weapons, ws[1..][i]) == Get(level.weapons, ws[i + 1])
  {
    var next := DropFirst(level, ws[0], at);
    forall i | 1 <= i < |ws|
      ensures Contains(next.weapons, ws[i]) && Get(next.weapons, ws[i]) == Get(level.weapons, ws[i])
    {
      assert Contains(level.weapons, ws[i]) && ws[i] != ws[0];
      assert next.weapons.slots[ws[i].index] == level.weapons.slots[ws[i].index];
    }
  }

  /** Dropping frees exactly the dropped weapons. */
  lemma {:induction false} DropFreesExactly(level: Level, ws: seq<Handle>, at: Point)
    requires forall i :: 0 <= i < |ws| ==> Contains(level.weapons, ws[i])
    requires Distinct(ws)
    ensures FreedExactly(level.weapons, DropWeapons(level, ws, at).weapons, ws)
    ensures forall i :: 0 <= i < |ws| ==> !Contains(DropWeapons(level, ws, at).weapons, ws[i])
    decreases |ws|
  {
    if |ws| > 0 {
      var next := DropFirst(level, ws[0], at);
      assert forall i :: 0 <= i < |ws| - 1 ==> ws[1..][i] == ws[i + 1] != ws[0];
      DropFreesExactly(next, ws[1..], at);
      assert forall x :: x in ws <==> x == ws[0] || x in ws[1..] by {
        assert ws == [ws[0]] + ws[1..];
      }
    }
  }

  /** Dropping resets the owner of exactly the projectiles fired by a dropped weapon. */
  lemma {:induction false} DropResetsOwners(level: Level, ws: seq<Handle>, at: Point)
    requires forall i :: 0 <= i < |ws| ==> Contains(level.weapons, ws[i])
    requires Distinct(ws)
    ensures OwnersReset(level.projectiles, DropWeapons(level, ws, at).projectiles, ws)
    decreases |ws|
  {
    if |ws| > 0 {
      var next := DropFirst(level, ws[0], at);
      assert forall i :: 0 <= i < |ws| - 1 ==> ws[1..][i] == ws[i + 1] != ws[0];
      DropResetsOwners(next, ws[1..], at);
      assert forall x :: x in ws <==> x == ws[0] || x in ws[1..] by {
        assert ws == [ws[0]] + ws[1..];
      }
      assert NoHandle !in ws[1..];
    }
  }

  /** Dropping appends one temporary item per dropped weapon, in order, of the weapon's kind. */
  lemma {:induction false} DropLeavesItems(level: Level, ws: seq<Handle>, at: Point)
    requires forall i :: 0 <= i < |ws| ==> Contains(level.weapons, ws[i])
    requires Distinct(ws)
    ensures var r := DropWeapons(level, ws, at);
      && |r.items.slots| == |level.items.slots| + |ws|
      && r.items.slots[..|level.items.slots|] == level.items.slots
      && forall i :: 0 <= i < |ws| ==>
           r.items.slots[|level.items.slots| + i] == Some(DroppedItem(Get(level.weapons, ws[i]).kind, at))
    decreases |ws|
  {
    if |ws| > 0 {
      var next := DropFirst(level, ws[0], at);
      DropFirstKeepsRest(level, ws, at);
      DropLeavesItems(next, ws[1..], at);
      var r := DropWeapons(level, ws, at);
      assert r == DropWeapons(next, ws[1..], at);
      assert r.items.slots[..|next.items.slots|] == next.items.slots;
      assert r.items.slots[|level.items.slots|] == next.items.slots[|level.items.slots|];
    }
  }

  /** The body position of every live character, in slot order. */
  function ActorPositions(actors: Pool<Actor>): (r: seq<Point>)
    ensures |r| <= |actors.slots|
    ensures forall i :: 0 <= i < |actors.slots| && actors.slots[i].Some? ==> actors.slots[i].value.position in r
    decreases |actors.slots|
  {
    if |actors.slots| == 0 then []
    else
      var last := actors.slots[|actors.slots| - 1];
      var before := ActorPositions(Pool(actors.slots[..|actors.slots| - 1]));
      if last.Some? then before + [last.value.position] else before
  }

  /**
   * Removes a character. An absent handle changes nothing. Otherwise each weapon it
   * carries leaves a temporary item where the ground is below the character and is
   * removed, the character is freed, and the level forgets its player if it was this one.
   * `ground` stands for the downward ray cast that places dropped items.
   */
  function RemoveActorFrom(level: Level, actor: Handle, ground: Point -> Point): (r: Level)
    requires Contains(level.actors, actor) ==>
      Armed(level, Get(level.actors, actor)) && Distinct(Get(level.actors, actor).weapons)
    ensures !Contains(level.actors, actor) ==> r == level
    ensures Contains(level.actors, actor) ==>
      && !Contains(r.actors, actor)
      && |r.actors.slots| == |level.actors.slots|
      && (forall i :: 0 <= i < |level.actors.slots| && i != actor.index ==> r.actors.slots[i] == level.actors.slots[i])
      && (r.player == NoHandle <==> level.player == actor || level.player == NoHandle)
      && (level.player != actor ==> r.player == level.player)
  {
    if !Contains(level.actors, actor) then level
    else
      var a := Get(level.actors, actor);
      var dropped := DropWeapons(level, a.weapons, ground(a.position));
      dropped.(actors := Free(dropped.actors, actor),
               player := if level.player == actor then NoHandle else level.player)
  }

  /**
   * The whole cascade of removing a character: its weapons are freed and nothing else is,
   * one temporary item of the matching kind per weapon lands below it, and the projectiles
   * those weapons fired lose their owner.
   */
  lemma RemoveActorCascade(level: Level, actor: Handle, ground: Point -> Point)
    requires Contains(level.actors, actor)
    requires Armed(level, Get(level.actors, actor)) && Distinct(Get(level.actors, actor).weapons)
    ensures var a := Get(level.actors, actor);
      var r := RemoveActorFrom(level, actor, ground);
      && FreedExactly(level.weapons, r.weapons, a.weapons)
      && OwnersReset(level.projectiles, r.projectiles, a.weapons)
      && |r.items.slots| == |level.items.slots| + |a.weapons|
      && r.items.slots[..|level.items.slots|] == level.items.slots
      && (forall i :: 0 <= i < |a.weapons| ==>
            r.items.slots[|level.items.slots| + i] ==
              Some(Item(DropKind(Get(level.weapons, a.weapons[i]).kind), ground(a.position), Some(20.0), false)))
  {
    var a := Get(level.actors, actor);
    DropFreesExactly(level, a.weapons, ground(a.position));
    DropResetsOwners(level, a.weapons, ground(a.position));
    DropLeavesItems(level, a.weapons, ground(a.position));
  }

  // ---------------------------------------------------------------------------------------
  // Giving weapons and items

  /**
   * Gives a character a new weapon of `kind`, owned by it, with `initialAmmo` rounds (the
   * count a new weapon starts with is set outside this model). An absent character gets
   * nothing.
   */
  function GiveNewWeaponTo(level: Level, actor: Handle, kind: WeaponKind, initialAmmo: nat): (r: Level)
    ensures Grows(level, r)
    ensures !Contains(level.actors, actor) ==> r == level
    ensures Contains(level.actors, actor) ==>
      && r == level.(weapons := r.weapons, actors := r.actors)
      && r.weapons.slots == level.weapons.slots + [Some(Weapon(kind, actor, initialAmmo))]
      && |r.actors.slots| == |level.actors.slots|
      && Contains(r.actors, actor)
      && Get(r.actors, actor) == Get(level.actors, actor).(weapons := Get(level.actors, actor).weapons + [Slot(|level.weapons.slots|)])
      && (forall i :: 0 <= i < |level.actors.slots| && i != actor.index ==> r.actors.slots[i] == level.actors.slots[i])
  {
    if !Contains(level.actors, actor) then level
    else
      var (weapons, h) := Spawn(level.weapons, Weapon(kind, actor, initialAmmo));
      var a := Get(level.actors, actor);
      level.(weapons := weapons, actors := Set(level.actors, actor, a.(weapons := a.weapons + [h])))
  }

  /** The position of the first weapon of `kind` among the handles `hs`, if any. */
  function FirstOfKind(weapons: Pool<Weapon>, hs: seq<Handle>, kind: WeaponKind): (r: Option<nat>)
    requires forall i :: 0 <= i < |hs| ==> Contains(weapons, hs[i])
    ensures r.Some? ==> r.value < |hs| && Get(weapons, hs[r.value]).kind == kind
    ensures r.Some? ==> forall j :: 0 <= j < r.value ==> Get(weapons, hs[j]).kind != kind
    ensures r.None? <==> forall j :: 0 <= j < |hs| ==> Get(weapons, hs[j]).kind != kind
  {
    if |hs| == 0 then None
    else if Get(weapons, hs[0]).kind == kind then Some(0)
    else
      match FirstOfKind(weapons, hs[1..], kind)
      case None => None
      case Some(i) => Some(i + 1)
  }

  /** Adds rounds to one weapon; nothing else changes. */
  function AddAmmo(level: Level, w: Handle, amount: nat): (r: Level)
    requires Contains(level.weapons, w)
    ensures r == level.(weapons := r.weapons)
    ensures |r.weapons.slots| == |level.weapons.slots| && Contains(r.weapons, w)
    ensures Get(r.weapons, w) == Get(level.weapons, w).(ammo := Get(level.weapons, w).ammo + amount)
    ensures forall i :: 0 <= i < |level.weapons.slots| && i != w.index ==> r.weapons.slots[i] == level.weapons.slots[i]
  {
    var weapon := Get(level.weapons, w);
    level.(weapons := Set(level.weapons, w, weapon.(ammo := weapon.ammo + amount)))
  }

  /** The weapon a weapon item stands for. */
  function ItemWeapon(kind: ItemKind): Option<WeaponKind>
  {
    match kind
    case Ak47 => Some(WeaponKind.Ak47)
    case PlasmaGun => Some(PlasmaRifle)
    case M4 => Some(WeaponKind.M4)
    case _ => None
  }

  /** The weapon an ammo item loads. */
  function AmmoWeapon(kind: ItemKind): Option<WeaponKind>
  {
    match kind
    case Plasma => Some(PlasmaRifle)
    case Ak47Ammo => Some(WeaponKind.Ak47)
    case M4Ammo => Some(WeaponKind.M4)
    case _ => None
  }

  /** `r` is `level` with 200 more rounds in the weapon `w` and nothing else changed. */
  predicate ToppedUp(level: Level, r: Level, w: Handle)
  {
    && Contains(level.weapons, w)
    && r == level.(weapons := r.weapons)
    && |r.weapons.slots| == |level.weapons.slots|
    && r.weapons.slots[w.index] == Some(Get(level.weapons, w).(ammo := Get(level.weapons, w).ammo + AmmoPerPickup))
    && (forall i :: 0 <= i < |level.weapons.slots| && i != w.index ==> r.weapons.slots[i] == level.weapons.slots[i])
  }

  /** Position `i` holds the first weapon of `kind` the character carries. */
  predicate FirstCarried(level: Level, a: Actor, kind: WeaponKind, i: nat)
    requires Armed(level, a)
  {
    i < |a.weapons| && Get(level.weapons, a.weapons[i]).kind == kind &&
    forall j :: 0 <= j < i ==> Get(level.weapons, a.weapons[j]).kind != kind
  }

  predicate Carries(level: Level, a: Actor, kind: WeaponKind)
    requires Armed(level, a)
  {
    exists j :: 0 <= j < |a.weapons| && Get(level.weapons, a.weapons[j]).kind == kind
  }

  /**
   * Gives an item to a character. An absent character gets nothing. A medkit heals 20. A
   * weapon item adds 200 rounds to the first weapon of its kind the character carries, or
   * else gives a new weapon of that kind. An ammo item adds 200 rounds to the first weapon
   * it fits and is lost when none fits. A rocket launcher item reaches a branch the game
   * declares unreachable, so a caller must not give one to a present character.
   */
  function GiveItemTo(level: Level, actor: Handle, kind: ItemKind, initialAmmo: WeaponKind -> nat): (r: Level)
    ensures Grows(level, r)
    requires Contains(level.actors, actor) ==> kind != RocketLauncher && Armed(level, Get(level.actors, actor))
    ensures r == level.(actors := r.actors, weapons := r.weapons)
  {
    if !Contains(level.actors, actor) then level
    else
      var a := Get(level.actors, actor);
      if kind == Medkit then
        level.(actors := Set(level.actors, actor, a.(health := a.health + MedkitHealth)))
      else if ItemWeapon(kind).Some? then
        match FirstOfKind(level.weapons, a.weapons, ItemWeapon(kind).value)
        case Some(i) => AddAmmo(level, a.weapons[i], AmmoPerPickup)
        case None => GiveNewWeaponTo(level, actor, ItemWeapon(kind).value, initialAmmo(ItemWeapon(kind).value))
      else
        match FirstOfKind(level.weapons, a.weapons, AmmoWeapon(kind).value)
        case Some(i) => AddAmmo(level, a.weapons[i], AmmoPerPickup)
        case None => level
  }

  /** What each kind of item does to the character it is given to. */
  lemma GiveItemEffects(level: Level, actor: Handle, kind: ItemKind, initialAmmo: WeaponKind -> nat)
    requires Contains(level.actors, actor) ==> kind != RocketLauncher && Armed(level, Get(level.actors, actor))
    ensures !Contains(level.actors, actor) ==> GiveItemTo(level, actor, kind, initialAmmo) == level
    ensures Contains(level.actors, actor) ==>
      var a := Get(level.actors, actor);
      var r := GiveItemTo(level, actor, kind, initialAmmo);
      && (kind == Medkit ==>
            r == level.(actors := r.actors) && Contains(r.actors, actor) &&
            Get(r.actors, actor) == a.(health := a.health + 20.0) &&
            forall i :: 0 <= i < |level.actors.slots| && i != actor.index ==> r.actors.slots[i] == level.actors.slots[i])
      && (ItemWeapon(kind).Some? && Carries(level, a, ItemWeapon(kind).value) ==>
            exists i: nat :: FirstCarried(level, a, ItemWeapon(kind).value, i) && ToppedUp(level, r, a.weapons[i]))
      && (ItemWeapon(kind).Some? && !Carries(level, a, ItemWeapon(kind).value) ==>
            r == GiveNewWeaponTo(level, actor, ItemWeapon(kind).value, initialAmmo(ItemWeapon(kind).value)))
      && (AmmoWeapon(kind).Some? && Carries(level, a, AmmoWeapon(kind).value) ==>
            exists i: nat :: FirstCarried(level, a, AmmoWeapon(kind).value, i) && ToppedUp(level, r, a.weapons[i]))
      && (AmmoWeapon(kind).Some? && !Carries(level, a, AmmoWeapon(kind).value) ==> r == level)
  {
    if Contains(level.actors, actor) && kind != Medkit {
      var a := Get(level.actors, actor);
      var k := if ItemWeapon(kind).Some? then ItemWeapon(kind).value else AmmoWeapon(kind).value;
      var first := FirstOfKind(level.weapons, a.weapons, k);
      if first.Some? {
        assert FirstCarried(level, a, k, first.value);
      }
    }
  }

  /**
   * A character picks up an item when both exist: the item is marked picked up, a pickup
   * sound is requested at the item's position, and the item is given to the character.
   * Otherwise nothing happens and nothing is sent.
   */
  function PickUp(level: Level, actor: Handle, item: Handle, initialAmmo: WeaponKind -> nat): (r: (Level, seq<Message>))
    ensures Grows(level, r.0)
    requires Contains(level.actors, actor) && Contains(level.items, item) ==>
      Get(level.items, item).kind != RocketLauncher && Armed(level, Get(level.actors, actor))
    ensures !(Contains(level.actors, actor) && Contains(level.items, item)) ==> r == (level, [])
    ensures Contains(level.actors, actor) && Contains(level.items, item) ==>
      var it := Get(level.items, item);
      && r.1 == [PlaySound(PickupSoundPath, it.position, 1.0, 3.0, 2.0)]
      && Contains(r.0.items, item) && Get(r.0.items, item) == it.(pickedUp := true)
      && r.0 == GiveItemTo(level.(items := r.0.items), actor, it.kind, initialAmmo)
  {
    if Contains(level.actors, actor) && Contains(level.items, item) then
      var it := Get(level.items, item);
      var picked := level.(items := Set(level.items, item, it.(pickedUp := true)));
      (GiveItemTo(picked, actor, it.kind, initialAmmo), [PlaySound(PickupSoundPath, it.position, 1.0, 3.0, 2.0)])
    else (level, [])
  }

  /**
   * Damages a character when it exists and the attacker is either nobody or an existing
   * character. A damaged bot turns its attention to where the attacker stands.
   */
  function DamageActorIn(level: Level, actor: Handle, who: Handle, amount: real, time: real): (r: Level)
    ensures Grows(level, r)
    ensures !(Contains(level.actors, actor) && (who == NoHandle || Contains(level.actors, who))) ==> r == level
    ensures Contains(level.actors, actor) && (who == NoHandle || Contains(level.actors, who)) ==>
      var a := Get(level.actors, actor);
      && r == level.(actors := r.actors)
      && |r.actors.slots| == |level.actors.slots| && Contains(r.actors, actor)
      && (forall i :: 0 <= i < |level.actors.slots| && i != actor.index ==> r.actors.slots[i] == level.actors.slots[i])
      && Get(r.actors, actor).health == a.health - amount
      && Get(r.actors, actor).(health := a.health, pointOfInterest := a.pointOfInterest) == a
      && (a.kind == BotActor && who != NoHandle ==>
            Get(r.actors, actor).pointOfInterest == Some((Get(level.actors, who).position, time)))
      && (a.kind == PlayerActor || who == NoHandle ==> Get(r.actors, actor).pointOfInterest == a.pointOfInterest)
  {
    if Contains(level.actors, actor) && (who == NoHandle || Contains(level.actors, who)) then
      var attacker := if who != NoHandle then Some(Get(level.actors, who).position) else None;
      var a := Get(level.actors, actor);
      var noticed := if a.kind == BotActor && attacker.Some? then a.(pointOfInterest := Some((attacker.value, time))) else a;
      level.(actors := Set(level.actors, actor, noticed.(health := noticed.health - amount)))
    else level
  }

  // ---------------------------------------------------------------------------------------
  // Death zones and the end of the match

  /** Whether a point lies in a box, faces included. */
  predicate InZone(z: Aabb, p: Point)
  {
    && z.min.x <= p.x <= z.max.x
    && z.min.y <= p.y <= z.max.y
    && z.min.z <= p.z <= z.max.z
  }

  function Kill(h: Handle): Message
  {
    DamageActor(h, NoHandle, DeathZoneDamage)
  }

  /** The positions of the zones that contain `p`. */
  function ZonesAt(p: Point, zones: seq<Aabb>): set<nat>
  {
    set z: nat | z < |zones| && InZone(zones[z], p)
  }

  /** How many of the zones contain `p`. */
  function ZoneCount(p: Point, zones: seq<Aabb>): nat
  {
    |ZonesAt(p, zones)|
  }

  /** Adding a zone adds its position to the containing ones exactly when it contains `p`. */
  lemma ZoneCountStep(p: Point, zones: seq<Aabb>)
    requires |zones| > 0
    ensures ZoneCount(p, zones) ==
      ZoneCount(p, zones[..|zones| - 1]) + (if InZone(zones[|zones| - 1], p) then 1 else 0)
  {
    var n := |zones| - 1;
    var before := ZonesAt(p, zones[..n]);
    var extra: set<nat> := if InZone(zones[n], p) then {n} else {};
    forall z: nat
      ensures z in ZonesAt(p, zones) <==> z in before + extra
    {
      if z < n {
        assert zones[..n][z] == zones[z];
      }
    }
    assert ZonesAt(p, zones) == before + extra;
    assert n !in before;
  }

  /**
   * One lethal damage request for the character `h` per zone that contains `p`, in zone
   * order: as many requests as `ZoneCount` counts zones, and none when no zone holds `p`.
   */
  function ZoneHits(h: Handle, p: Point, zones: seq<Aabb>): (r: seq<Message>)
    ensures |r| == ZoneCount(p, zones) && |r| <= |zones|
    ensures multiset(r)[Kill(h)] == |r|
    ensures forall m :: m in r ==> m == Kill(h)
    ensures |r| > 0 <==> exists i :: 0 <= i < |zones| && InZone(zones[i], p)
    ensures |r| == |zones| <==> forall i :: 0 <= i < |zones| ==> InZone(zones[i], p)
    decreases |zones|
  {
    if |zones| == 0 then []
    else
      var before := ZoneHits(h, p, zones[..|zones| - 1]);
      assert forall i :: 0 <= i < |zones| - 1 ==> zones[..|zones| - 1][i] == zones[i];
      ZoneCountStep(p, zones);
      if InZone(zones[|zones| - 1], p) then before + [Kill(h)] else before
  }

  /** The lethal requests the death zones send for slot `i`: one per zone containing its character, none for a free slot. */
  function SlotHits(actors: Pool<Actor>, zones: seq<Aabb>, i: nat): (r: seq<Message>)
    requires i < |actors.slots|
    ensures forall m :: m in r ==> m == Kill(Slot(i))
    ensures multiset(r)[Kill(Slot(i))] == |r|
    ensures |r| == (if actors.slots[i].Some? then ZoneCount(actors.slots[i].value.position, zones) else 0)
    ensures forall z :: 0 <= z < |zones| && actors.slots[i].Some? && InZone(zones[z], actors.slots[i].value.position) ==>
      Kill(Slot(i)) in r
  {
    match actors.slots[i]
    case None => []
    case Some(a) =>
      var hits := ZoneHits(Slot(i), a.position, zones);
      assert |hits| > 0 ==> hits[0] in hits;
      hits
  }

  /**
   * The damage requests the death zones send, for the characters in the first `n` slots:
   * lethal, from nobody, one per (character, zone containing it). Characters are not
   * touched; the requests come back as messages.
   */
  function DeathZoneMessages(actors: Pool<Actor>, n: nat, zones: seq<Aabb>): (r: seq<Message>)
    requires n <= |actors.slots|
    ensures forall m :: m in r ==>
      m.DamageActor? && m.who == NoHandle && m.amount == 99999.0 && Contains(actors, m.actor) && m.actor.index < n &&
      exists z :: 0 <= z < |zones| && InZone(zones[z], Get(actors, m.actor).position)
    ensures forall i, z :: 0 <= i < n && actors.slots[i].Some? && 0 <= z < |zones| && InZone(zones[z], actors.slots[i].value.position) ==>
      Kill(Slot(i)) in r
  {
    if n == 0 then []
    else
      var hits := SlotHits(actors, zones, n - 1);
      assert forall m :: m in hits ==> m == Kill(Slot(n - 1)) && actors.slots[n - 1].Some?;
      DeathZoneMessages(actors, n - 1, zones) + hits
  }

  /** How many lethal requests the death zones owe slot `i`: one per zone containing its character. */
  function OwedHits(actors: Pool<Actor>, zones: seq<Aabb>, i: nat): nat
    requires i < |actors.slots|
  {
    if actors.slots[i].Some? then ZoneCount(actors.slots[i].value.position, zones) else 0
  }

  /**
   * The death zones send a live character exactly as many lethal requests as there are
   * zones containing it, and a free slot none.
   */
  lemma {:induction false} DeathZoneCounts(actors: Pool<Actor>, n: nat, zones: seq<Aabb>)
    requires n <= |actors.slots|
    ensures forall i :: 0 <= i < n ==>
      multiset(DeathZoneMessages(actors, n, zones))[Kill(Slot(i))] == OwedHits(actors, zones, i)
  {
    if n > 0 {
      DeathZoneCounts(actors, n - 1, zones);
      var before := DeathZoneMessages(actors, n - 1, zones);
      var hits := SlotHits(actors, zones, n - 1);
      assert DeathZoneMessages(actors, n, zones) == before + hits;
      CountsAppend(actors, zones, before, hits, n - 1);
    }
  }

  /**
   * Appending the requests for slot `last` to those for the earlier slots gives `last` its
   * owed count and leaves every earlier slot's count as it was.
   */
  lemma CountsAppend(actors: Pool<Actor>, zones: seq<Aabb>, before: seq<Message>, hits: seq<Message>, last: nat)
    requires last < |actors.slots|
    requires forall m :: m in before ==> m.DamageActor? && m.actor.Slot? && m.actor.index < last
    requires forall i :: 0 <= i < last ==> multiset(before)[Kill(Slot(i))] == OwedHits(actors, zones, i)
    requires forall m :: m in hits ==> m == Kill(Slot(last))
    requires multiset(hits)[Kill(Slot(last))] == |hits| == OwedHits(actors, zones, last)
    ensures forall i :: 0 <= i <= last ==> multiset(before + hits)[Kill(Slot(i))] == OwedHits(actors, zones, i)
  {
    assert multiset(before + hits) == multiset(before) + multiset(hits);
    assert Kill(Slot(last)) !in before;
    forall i | 0 <= i < last
      ensures multiset(hits)[Kill(Slot(i))] == 0
    {
      assert Kill(Slot(i)) !in hits;
    }
  }

  /**
   * The player's death ends the match. The game reads the player without checking that it
   * exists, so once the player has been removed (and its handle reset to none) the read
   * fails: that failure is the error here, carrying the handle that was read.
   */
  function GameEnding(level: Level): (r: Result<Option<Message>, Handle>)
    ensures r.Err? <==> !Contains(level.actors, level.player)
    ensures r.Err? ==> r.error == level.player
    ensures r.Ok? ==> (r.value.Some? <==> IsDead(Get(level.actors, level.player)))
    ensures r.Ok? && r.value.Some? ==> r.value.value == EndMatch
  {
    if !Contains(level.actors, level.player) then Err(level.player)
    else if IsDead(Get(level.actors, level.player)) then Ok(Some(EndMatch))
    else Ok(None)
  }

  /** A character is dead once its health is used up. */
  predicate IsDead(a: Actor)
  {
    a.health <= 0.0
  }

  // ---------------------------------------------------------------------------------------
  // Reading the map

  /** A scene node as the map analysis sees it: its name, position, whether it is a mesh, and its world box. */
  datatype SceneNode = SceneNode(name: string, position: Point, isMesh: bool, bounds: Aabb)

  datatype NodeRole = ItemNode(kind: ItemKind) | SpawnPointNode | DeathZoneNode | Ignored

  predicate StartsWith(s: string, prefix: string)
  {
    |prefix| <= |s| && s[..|prefix|] == prefix
  }

  /**
   * What a node is, by the first of the prefixes "Medkit", "Ammo_Ak47", "Ammo_M4",
   * "Ammo_Plasma", "SpawnPoint", "DeathZone" its name starts with. A death zone counts
   * only when the node is a mesh.
   */
  function Classify(name: string, isMesh: bool): NodeRole
  {
    if StartsWith(name, "Medkit") then ItemNode(Medkit)
    else if StartsWith(name, "Ammo_Ak47") then ItemNode(Ak47Ammo)
    else if StartsWith(name, "Ammo_M4") then ItemNode(M4Ammo)
    else if StartsWith(name, "Ammo_Plasma") then ItemNode(Plasma)
    else if StartsWith(name, "SpawnPoint") then SpawnPointNode
    else if StartsWith(name, "DeathZone") then (if isMesh then DeathZoneNode else Ignored)
    else Ignored
  }

  const Prefixes: seq<string> := ["Medkit", "Ammo_Ak47", "Ammo_M4", "Ammo_Plasma", "SpawnPoint", "DeathZone"]

  /** Two prefixes that differ at a position both reach cannot both start one name. */
  lemma PrefixesClash(name: string, p: string, q: string, k: nat)
    requires k < |p| && k < |q| && p[k] != q[k]
    ensures !(StartsWith(name, p) && StartsWith(name, q))
  {
    if StartsWith(name, p) && |q| <= |name| {
      assert name[k] == name[..|p|][k] == p[k];
      assert name[..|q|][k] != q[k];
    }
  }

  /** No name starts with two of the prefixes, so the order they are tried in does not matter. */
  lemma PrefixesExclusive(name: string)
    ensures forall i, j :: 0 <= i < j < |Prefixes| ==> !(StartsWith(name, Prefixes[i]) && StartsWith(name, Prefixes[j]))
  {
    forall i, j | 0 <= i < j < |Prefixes|
      ensures !(StartsWith(name, Prefixes[i]) && StartsWith(name, Prefixes[j]))
    {
      var k := if Prefixes[i][0] != Prefixes[j][0] then 0 else 5;
      PrefixesClash(name, Prefixes[i], Prefixes[j], k);
    }
  }

  /** A node has each role exactly when its name starts with that role's prefix. */
  lemma ClassifyByPrefix(name: string, isMesh: bool)
    ensures Classify(name, isMesh) == ItemNode(Medkit) <==> StartsWith(name, "Medkit")
    ensures Classify(name, isMesh) == ItemNode(Ak47Ammo) <==> StartsWith(name, "Ammo_Ak47")
    ensures Classify(name, isMesh) == ItemNode(M4Ammo) <==> StartsWith(name, "Ammo_M4")
    ensures Classify(name, isMesh) == ItemNode(Plasma) <==> StartsWith(name, "Ammo_Plasma")
    ensures Classify(name, isMesh) == SpawnPointNode <==> StartsWith(name, "SpawnPoint")
    ensures Classify(name, isMesh) == DeathZoneNode <==> StartsWith(name, "DeathZone") && isMesh
    ensures Classify(name, isMesh).ItemNode? ==> Classify(name, isMesh).kind in {Medkit, Ak47Ammo, M4Ammo, Plasma}
  {
    PrefixesExclusive(name);
    assert Prefixes[0] == "Medkit" && Prefixes[1] == "Ammo_Ak47" && Prefixes[2] == "Ammo_M4";
    assert Prefixes[3] == "Ammo_Plasma" && Prefixes[4] == "SpawnPoint" && Prefixes[5] == "DeathZone";
  }

  /** What the analysis of a map collects: items to place, spawn points, death-zone boxes. */
  datatype Analysis = Analysis(items: seq<(ItemKind, Point)>, spawnPoints: seq<Point>, deathZones: seq<Aabb>)

  /** One node's contribution to the analysis. */
  function Collect(a: Analysis, n: SceneNode): Analysis
  {
    match Classify(n.name, n.isMesh)
    case ItemNode(kind) => a.(items := a.items + [(kind, n.position)])
    case SpawnPointNode => a.(spawnPoints := a.spawnPoints + [n.position])
    case DeathZoneNode => a.(deathZones := a.deathZones + [n.bounds])
    case Ignored => a
  }

  /** Walks the nodes in order, collecting each by its role. */
  function Analyze(nodes: seq<SceneNode>): Analysis
  {
    if |nodes| == 0 then Analysis([], [], [])
    else Collect(Analyze(nodes[..|nodes| - 1]), nodes[|nodes| - 1])
  }

  function Join(a: Analysis, b: Analysis): Analysis
  {
    Analysis(a.items + b.items, a.spawnPoints + b.spawnPoints, a.deathZones + b.deathZones)
  }

  /** The analysis treats every node on its own: analysing two runs of nodes joins their results. */
  lemma {:induction false} AnalyzeJoins(xs: seq<SceneNode>, ys: seq<SceneNode>)
    ensures Analyze(xs + ys) == Join(Analyze(xs), Analyze(ys))
    decreases |ys|
  {
    if |ys| == 0 {
      assert xs + ys == xs;
    } else {
      var last := ys[|ys| - 1];
      assert (xs + ys)[..|xs + ys| - 1] == xs + ys[..|ys| - 1];
      AnalyzeJoins(xs, ys[..|ys| - 1]);
    }
  }

  /** The item nodes' kinds and positions, front to back, one entry per item node. */
  function ItemsOf(nodes: seq<SceneNode>): seq<(ItemKind, Point)>
  {
    if |nodes| == 0 then []
    else
      match Classify(nodes[0].name, nodes[0].isMesh)
      case ItemNode(kind) => [(kind, nodes[0].position)] + ItemsOf(nodes[1..])
      case _ => ItemsOf(nodes[1..])
  }

  /** The spawn-point nodes' positions, front to back, one entry per spawn-point node. */
  function SpawnPointsOf(nodes: seq<SceneNode>): seq<Point>
  {
    if |nodes| == 0 then []
    else if Classify(nodes[0].name, nodes[0].isMesh) == SpawnPointNode then [nodes[0].position] + SpawnPointsOf(nodes[1..])
    else SpawnPointsOf(nodes[1..])
  }

  /** The death-zone nodes' boxes, front to back, one entry per death-zone node. */
  function DeathZonesOf(nodes: seq<SceneNode>): seq<Aabb>
  {
    if |nodes| == 0 then []
    else if Classify(nodes[0].name, nodes[0].isMesh) == DeathZoneNode then [nodes[0].bounds] + DeathZonesOf(nodes[1..])
    else DeathZonesOf(nodes[1..])
  }

  /** The analysis lists each role's nodes once each, in node order. */
  lemma {:induction false} AnalyzeInOrder(nodes: seq<SceneNode>)
    ensures Analyze(nodes).items == ItemsOf(nodes)
    ensures Analyze(nodes).spawnPoints == SpawnPointsOf(nodes)
    ensures Analyze(nodes).deathZones == DeathZonesOf(nodes)
  {
    if |nodes| > 0 {
      var first := [nodes[0]];
      assert first + nodes[1..] == nodes;
      AnalyzeJoins(first, nodes[1..]);
      AnalyzeInOrder(nodes[1..]);
      assert first[..0] == [];
      assert Analyze(first) == Collect(Analysis([], [], []), nodes[0]);
    }
  }

  /** Every entry the analysis reports comes from a node of that role, and every such node is reported. */
  lemma {:induction false} AnalyzeMembers(nodes: seq<SceneNode>)
    ensures var r := Analyze(nodes);
      && (forall e :: e in r.items <==> exists j :: 0 <= j < |nodes| && Classify(nodes[j].name, nodes[j].isMesh) == ItemNode(e.0) && nodes[j].position == e.1)
      && (forall p :: p in r.spawnPoints <==> exists j :: 0 <= j < |nodes| && Classify(nodes[j].name, nodes[j].isMesh) == SpawnPointNode && nodes[j].position == p)
      && (forall b :: b in r.deathZones <==> exists j :: 0 <= j < |nodes| && Classify(nodes[j].name, nodes[j].isMesh) == DeathZoneNode && nodes[j].bounds == b)
  {
    if |nodes| > 0 {
      var init := nodes[..|nodes| - 1];
      AnalyzeMembers(init);
      assert forall j :: 0 <= j < |init| ==> init[j] == nodes[j];
    }
  }

  /**
   * The analysis lists each item, spawn point and death zone once per node of that role,
   * in node order; so every entry comes from a node of that role, and every such node is reported.
   */
  lemma AnalyzeCollects(nodes: seq<SceneNode>)
    ensures var r := Analyze(nodes);
      r.items == ItemsOf(nodes) && r.spawnPoints == SpawnPointsOf(nodes) && r.deathZones == DeathZonesOf(nodes)
    ensures var r := Analyze(nodes);
      && (forall e :: e in r.items <==> exists j :: 0 <= j < |nodes| && Classify(nodes[j].name, nodes[j].isMesh) == ItemNode(e.0) && nodes[j].position == e.1)
      && (forall p :: p in r.spawnPoints <==> exists j :: 0 <= j < |nodes| && Classify(nodes[j].name, nodes[j].isMesh) == SpawnPointNode && nodes[j].position == p)
      && (forall b :: b in r.deathZones <==> exists j :: 0 <= j < |nodes| && Classify(nodes[j].name, nodes[j].isMesh) == DeathZoneNode && nodes[j].bounds == b)
  {
    AnalyzeInOrder(nodes);
    AnalyzeMembers(nodes);
  }

  // ---------------------------------------------------------------------------------------
  // Choosing where to spawn

  /** `usize::MAX`, returned when there is no spawn point to choose. */
  const UsizeMax: nat := 0xFFFF_FFFF_FFFF_FFFF

  /** The largest finite `f32`; the search starts from its negation. */
  const F32Max: real := 340282346638528859811704183484516925440.0

  /** The summed distance from a spawn point to every character, added in order. */
  function DistanceSum(p: Point, actors: seq<Point>, distance: Metric): real
  {
    if |actors| == 0 then 0.0
    else DistanceSum(p, actors[..|actors| - 1], distance) + distance(p, actors[|actors| - 1])
  }

  lemma {:induction false} DistanceSumNonNegative(p: Point, actors: seq<Point>, distance: Metric)
    requires NonNegative(distance)
    ensures DistanceSum(p, actors, distance) >= 0.0
  {
    if |actors| > 0 {
      DistanceSumNonNegative(p, actors[..|actors| - 1], distance);
      assert distance(p, actors[|actors| - 1]) >= 0.0;
    }
  }

  /**
   * The search over the first `n` spawn points: starting from index `start` and best sum
   * `-F32Max`, a point replaces the best only with a strictly larger sum.
   */
  function Scan(points: seq<Point>, actors: seq<Point>, distance: Metric, start: nat, n: nat): (r: (nat, real))
    requires n <= |points|
    ensures r.0 == start || r.0 < n
  {
    if n == 0 then (start, -F32Max)
    else
      var (index, best) := Scan(points, actors, distance, start, n - 1);
      var sum := DistanceSum(points[n - 1], actors, distance);
      if sum > best then (n - 1, sum) else (index, best)
  }

  /** `i` is the first of the first `n` points with the largest summed distance. */
  predicate FirstFarthest(points: seq<Point>, actors: seq<Point>, distance: Metric, n: nat, i: nat)
    requires n <= |points|
  {
    && i < n
    && (forall j :: 0 <= j < n ==> DistanceSum(points[j], actors, distance) <= DistanceSum(points[i], actors, distance))
    && (forall j :: 0 <= j < i ==> DistanceSum(points[j], actors, distance) < DistanceSum(points[i], actors, distance))
  }

  /** Once some sum beats `-F32Max`, the search holds the first point with the largest sum. */
  lemma {:induction false} ScanFindsFirstFarthest(points: seq<Point>, actors: seq<Point>, distance: Metric, start: nat, n: nat)
    requires 0 < n <= |points|
    requires forall j :: 0 <= j < n ==> DistanceSum(points[j], actors, distance) > -F32Max
    ensures FirstFarthest(points, actors, distance, n, Scan(points, actors, distance, start, n).0)
    ensures Scan(points, actors, distance, start, n).1 == DistanceSum(points[Scan(points, actors, distance, start, n).0], actors, distance)
  {
    if n > 1 {
      ScanFindsFirstFarthest(points, actors, distance, start, n - 1);
    }
  }

  /**
   * The spawn point with the most room: the first point whose summed distance to all
   * characters is largest, or `UsizeMax` when there are no points. `random` stands for the
   * random draw of the starting index, which with non-negative distances never survives.
   */
  function SuitableSpawnPoint(points: seq<Point>, actors: seq<Point>, distance: Metric, random: nat): (r: nat)
    ensures |points| == 0 ==> r == UsizeMax
    ensures |points| > 0 ==> r < |points|
    ensures |points| > 0 && NonNegative(distance) ==> FirstFarthest(points, actors, distance, |points|, r)
  {
    if |points| == 0 then UsizeMax
    else
      ScanWithDistances(points, actors, distance, random % |points|);
      Scan(points, actors, distance, random % |points|, |points|).0
  }

  /** With non-negative distances every sum beats `-F32Max`, so the whole search finds the first farthest point. */
  lemma ScanWithDistances(points: seq<Point>, actors: seq<Point>, distance: Metric, start: nat)
    requires |points| > 0
    ensures NonNegative(distance) ==>
      FirstFarthest(points, actors, distance, |points|, Scan(points, actors, distance, start, |points|).0)
  {
    if NonNegative(distance) {
      forall j | 0 <= j < |points|
        ensures DistanceSum(points[j], actors, distance) > -F32Max
      {
        DistanceSumNonNegative(points[j], actors, distance);
      }
      ScanFindsFirstFarthest(points, actors, distance, start, |points|);
    }
  }

  /** Two first-farthest indices are one and the same. */
  lemma FirstFarthestUnique(points: seq<Point>, actors: seq<Point>, distance: Metric, n: nat, i: nat, j: nat)
    requires n <= |points|
    requires FirstFarthest(points, actors, distance, n, i) && FirstFarthest(points, actors, distance, n, j)
    ensures i == j
  {
    assert DistanceSum(points[j], actors, distance) <= DistanceSum(points[i], actors, distance);
    assert DistanceSum(points[i], actors, distance) <= DistanceSum(points[j], actors, distance);
  }

  /**
   * With non-negative distances the random starting index never decides the outcome: any
   * two draws choose the same spawn point.
   */
  lemma RandomStartNeverSurvives(points: seq<Point>, actors: seq<Point>, distance: Metric, a: nat, b: nat)
    requires NonNegative(distance)
    ensures SuitableSpawnPoint(points, actors, distance, a) == SuitableSpawnPoint(points, actors, distance, b)
  {
    if |points| > 0 {
      FirstFarthestUnique(points, actors, distance, |points|,
        SuitableSpawnPoint(points, actors, distance, a), SuitableSpawnPoint(points, actors, distance, b));
    }
  }

  /** How far above its spawn point the player's body appears. */
  const PlayerLift := Point(0.0, 1.5, 0.0)

  /** Where the player appears for a chosen index: above that point, or at the origin when the index names no point. */
  function PlayerSpawnPosition(points: seq<Point>, index: nat): Point
  {
    if index < |points| then Add(points[index], PlayerLift) else Origin
  }

  /** Where a bot appears for a chosen index: on that point, or at the origin when the index names no point. */
  function BotSpawnPosition(points: seq<Point>, index: nat): Point
  {
    if index < |points| then points[index] else Origin
  }

  /**
   * Where characters spawn. Without spawn points both appear at the origin. Otherwise a bot
   * stands on the first farthest point and the player 1.5 above it.
   */
  lemma SpawnPositions(points: seq<Point>, actors: seq<Point>, distance: Metric, random: nat)
    requires NonNegative(distance)
    ensures var i := SuitableSpawnPoint(points, actors, distance, random);
      && (|points| == 0 ==> PlayerSpawnPosition(points, i) == Origin && BotSpawnPosition(points, i) == Origin)
      && (|points| > 0 ==>
            && FirstFarthest(points, actors, distance, |points|, i)
            && BotSpawnPosition(points, i) == points[i]
            && PlayerSpawnPosition(points, i) == Point(points[i].x, points[i].y + 1.5, points[i].z))
  {
  }

  // ---------------------------------------------------------------------------------------
  // Spawning characters, items and projectiles

  /** The `n` handles a pool hands out next when it holds `from` slots. */
  function NextHandles(from: nat, n: nat): seq<Handle>
  {
    if n == 0 then [] else NextHandles(from, n - 1) + [Slot(from + n - 1)]
  }

  /** New weapons of the listed kinds, owned by `owner`, each loaded with the rounds of its kind. */
  function NewWeapons(kinds: seq<WeaponKind>, owner: Handle, initialAmmo: WeaponKind -> nat): (r: seq<Option<Weapon>>)
    ensures |r| == |kinds|
  {
    if |kinds| == 0 then []
    else NewWeapons(kinds[..|kinds| - 1], owner, initialAmmo) + [Some(Weapon(kinds[|kinds| - 1], owner, initialAmmo(kinds[|kinds| - 1])))]
  }

  /**
   * Gives the character `actor` new weapons of the listed kinds, in order: the weapons
   * land in fresh slots and the character carries their handles after the ones it had.
   */
  function GiveWeapons(level: Level, actor: Handle, kinds: seq<WeaponKind>, initialAmmo: WeaponKind -> nat): (r: Level)
    requires Contains(level.actors, actor)
    ensures r == level.(weapons := r.weapons, actors := r.actors)
    ensures r.weapons.slots == level.weapons.slots + NewWeapons(kinds, actor, initialAmmo)
    ensures |r.actors.slots| == |level.actors.slots| && Contains(r.actors, actor)
    ensures forall i :: 0 <= i < |level.actors.slots| && i != actor.index ==> r.actors.slots[i] == level.actors.slots[i]
    ensures var a := Get(level.actors, actor);
      Get(r.actors, actor) == a.(weapons := a.weapons + NextHandles(|level.weapons.slots|, |kinds|))
    decreases |kinds|
  {
    if |kinds| == 0 then level
    else
      var n := |kinds| - 1;
      var before := GiveWeapons(level, actor, kinds[..n], initialAmmo);
      var had := Get(level.actors, actor).weapons;
      assert had + NextHandles(|level.weapons.slots|, n) + [Slot(|before.weapons.slots|)]
          == had + NextHandles(|level.weapons.slots|, n + 1);
      GiveNewWeaponTo(before, actor, kinds[n], initialAmmo(kinds[n]))
  }

  /**
   * Adds a character's body at `position`, carrying nothing yet, then gives it new weapons
   * of the listed kinds. Returns the level and the new character's handle.
   */
  function Enter(level: Level, body: Actor, position: Point, kinds: seq<WeaponKind>, initialAmmo: WeaponKind -> nat): (r: (Level, Handle))
    ensures r.1 == Slot(|level.actors.slots|) && Contains(r.0.actors, r.1)
    ensures Get(r.0.actors, r.1) == body.(position := position, weapons := NextHandles(|level.weapons.slots|, |kinds|))
    ensures r.0 == level.(weapons := r.0.weapons, actors := r.0.actors)
    ensures Grows(level, r.0)
    ensures |r.0.actors.slots| == |level.actors.slots| + 1 && r.0.actors.slots[..|level.actors.slots|] == level.actors.slots
    ensures r.0.weapons.slots == level.weapons.slots + NewWeapons(kinds, r.1, initialAmmo)
  {
    var (actors, h) := Spawn(level.actors, body.(position := position, weapons := []));
    var r := GiveWeapons(level.(actors := actors), h, kinds, initialAmmo);
    assert r.actors.slots[..|level.actors.slots|] == level.actors.slots by {
      assert forall i :: 0 <= i < |level.actors.slots| ==> r.actors.slots[i] == actors.slots[i];
    }
    (r, h)
  }

  /** The weapons a newly spawned player carries, in the order they are given. */
  const PlayerWeapons: seq<WeaponKind> := [WeaponKind.M4, WeaponKind.Ak47, PlasmaRifle]

  /**
   * The world outside the level that its handlers consult: the game time, the downward ray
   * cast, the distance between points, the random draw for the spawn search, the rounds a
   * new weapon of each kind holds, a weapon's own firing rule (whether it fires now, and
   * the rounds it holds after trying), and the freshly built bodies of a player and of each
   * kind of bot.
   */
  datatype Env = Env(
    time: real,
    ground: Point -> Point,
    distance: Metric,
    random: nat,
    initialAmmo: WeaponKind -> nat,
    tryShoot: (Weapon, real) -> (bool, nat),
    playerBody: Actor,
    botBody: BotKind -> Actor)

  /**
   * Spawns the player on the most suitable spawn point, 1.5 above it, armed with a new M4,
   * AK-47 and plasma rifle, and makes it the level's player.
   */
  function SpawnPlayerIn(level: Level, env: Env): (r: Level)
    ensures Grows(level, r.(player := level.player))
    ensures var index := SuitableSpawnPoint(level.spawnPoints, ActorPositions(level.actors), env.distance, env.random);
      var w := |level.weapons.slots|;
      && r.player == Slot(|level.actors.slots|) && Contains(r.actors, r.player)
      && Get(r.actors, r.player) == env.playerBody.(kind := PlayerActor,
           position := PlayerSpawnPosition(level.spawnPoints, index), weapons := [Slot(w), Slot(w + 1), Slot(w + 2)])
      && r.actors.slots[..|level.actors.slots|] == level.actors.slots
      && r.weapons.slots == level.weapons.slots + [
           Some(Weapon(WeaponKind.M4, r.player, env.initialAmmo(WeaponKind.M4))),
           Some(Weapon(WeaponKind.Ak47, r.player, env.initialAmmo(WeaponKind.Ak47))),
           Some(Weapon(PlasmaRifle, r.player, env.initialAmmo(PlasmaRifle)))]
      && r == level.(player := r.player, actors := r.actors, weapons := r.weapons)
  {
    var index := SuitableSpawnPoint(level.spawnPoints, ActorPositions(level.actors), env.distance, env.random);
    var (entered, h) := Enter(level, env.playerBody.(kind := PlayerActor), PlayerSpawnPosition(level.spawnPoints, index),
                              PlayerWeapons, env.initialAmmo);
    PlayerKit(|level.weapons.slots|, h, env.initialAmmo);
    entered.(player := h)
  }

  /** The handles and weapons a new player receives, written out. */
  lemma PlayerKit(w: nat, owner: Handle, initialAmmo: WeaponKind -> nat)
    ensures NextHandles(w, |PlayerWeapons|) == [Slot(w), Slot(w + 1), Slot(w + 2)]
    ensures NewWeapons(PlayerWeapons, owner, initialAmmo) == [
      Some(Weapon(WeaponKind.M4, owner, initialAmmo(WeaponKind.M4))),
      Some(Weapon(WeaponKind.Ak47, owner, initialAmmo(WeaponKind.Ak47))),
      Some(Weapon(PlasmaRifle, owner, initialAmmo(PlasmaRifle)))]
  {
    assert NextHandles(w, 1) == [Slot(w)];
    assert NextHandles(w, 2) == [Slot(w), Slot(w + 1)];
    var k := PlayerWeapons;
    assert k[..2] == [WeaponKind.M4, WeaponKind.Ak47] && k[..2][..1] == [WeaponKind.M4] && k[..2][..1][..0] == [];
    assert NewWeapons(k[..2][..1], owner, initialAmmo) == [Some(Weapon(WeaponKind.M4, owner, initialAmmo(WeaponKind.M4)))];
    assert NewWeapons(k[..2], owner, initialAmmo) == [
      Some(Weapon(WeaponKind.M4, owner, initialAmmo(WeaponKind.M4))),
      Some(Weapon(WeaponKind.Ak47, owner, initialAmmo(WeaponKind.Ak47)))];
  }

  /** Adds a bot of `kind` at `position` armed with a new AK-47; returns its handle too. */
  function AddBotIn(level: Level, kind: BotKind, position: Point, env: Env): (r: (Level, Handle))
    ensures Grows(level, r.0)
    ensures var w := |level.weapons.slots|;
      && r.1 == Slot(|level.actors.slots|) && Contains(r.0.actors, r.1)
      && Get(r.0.actors, r.1) == env.botBody(kind).(kind := BotActor, position := position, weapons := [Slot(w)])
      && r.0.actors.slots[..|level.actors.slots|] == level.actors.slots
      && r.0.weapons.slots == level.weapons.slots + [Some(Weapon(WeaponKind.Ak47, r.1, env.initialAmmo(WeaponKind.Ak47)))]
      && r.0 == level.(actors := r.0.actors, weapons := r.0.weapons)
  {
    Enter(level, env.botBody(kind).(kind := BotActor), position, [WeaponKind.Ak47], env.initialAmmo)
  }

  /** Spawns a bot of `kind` on the most suitable spawn point, with no lift. */
  function SpawnBotIn(level: Level, kind: BotKind, env: Env): (r: Level)
    ensures Grows(level, r)
    ensures var index := SuitableSpawnPoint(level.spawnPoints, ActorPositions(level.actors), env.distance, env.random);
      && Contains(r.actors, Slot(|level.actors.slots|))
      && Get(r.actors, Slot(|level.actors.slots|)).position == BotSpawnPosition(level.spawnPoints, index)
      && Get(r.actors, Slot(|level.actors.slots|)).kind == BotActor
      && r.actors.slots[..|level.actors.slots|] == level.actors.slots
      && r == level.(actors := r.actors, weapons := r.weapons)
  {
    var index := SuitableSpawnPoint(level.spawnPoints, ActorPositions(level.actors), env.distance, env.random);
    AddBotIn(level, kind, BotSpawnPosition(level.spawnPoints, index), env).0
  }

  /**
   * Adds an item that has not been picked up, with the given lifetime, at `position` or,
   * when asked to adjust its height, where the ground is below `position`.
   */
  function SpawnItemIn(level: Level, kind: ItemKind, position: Point, adjustHeight: bool, lifetime: Option<real>, ground: Point -> Point): (r: Level)
    ensures Grows(level, r)
    ensures r == level.(items := r.items)
    ensures |r.items.slots| == |level.items.slots| + 1 && r.items.slots[..|level.items.slots|] == level.items.slots
    ensures Contains(r.items, Slot(|level.items.slots|))
    ensures var it := Get(r.items, Slot(|level.items.slots|));
      && it.kind == kind && it.lifetime == lifetime && !it.pickedUp
      && (adjustHeight ==> it.position == ground(position))
      && (!adjustHeight ==> it.position == position)
  {
    var at := if adjustHeight then ground(position) else position;
    level.(items := Spawn(level.items, Item(kind, at, lifetime, false)).0)
  }

  /** A dropped weapon's item is the item `SpawnItemIn` adds with height adjustment and the drop lifetime. */
  lemma DropIsSpawnedItem(level: Level, w: Handle, at: Point, ground: Point -> Point)
    requires Contains(level.weapons, w)
    ensures DropFirst(level, w, ground(at)).items ==
      SpawnItemIn(level, DropKind(Get(level.weapons, w).kind), at, true, Some(DropLifetime), ground).items
  {
  }

  /** Adds a projectile fired by the weapon `owner`. */
  function CreateProjectileIn(level: Level, owner: Handle): (r: Level)
    ensures Grows(level, r)
    ensures r == level.(projectiles := r.projectiles)
    ensures |r.projectiles.slots| == |level.projectiles.slots| + 1
    ensures r.projectiles.slots[..|level.projectiles.slots|] == level.projectiles.slots
    ensures Contains(r.projectiles, Slot(|level.projectiles.slots|))
    ensures Get(r.projectiles, Slot(|level.projectiles.slots|)).owner == owner
  {
    level.(projectiles := Spawn(level.projectiles, Projectile(owner)).0)
  }

  /**
   * Asks an existing weapon to shoot. The weapon keeps its kind and owner and holds the
   * rounds its firing rule leaves it with, and exactly when the rule says it fired a
   * projectile owned by it appears. An absent weapon does nothing.
   */
  function ShootWeaponIn(level: Level, w: Handle, env: Env): (r: Level)
    ensures Grows(level, r)
    ensures !Contains(level.weapons, w) ==> r == level
    ensures Contains(level.weapons, w) ==>
      var (fired, left) := env.tryShoot(Get(level.weapons, w), env.time);
      && r == level.(weapons := r.weapons, projectiles := r.projectiles)
      && |r.weapons.slots| == |level.weapons.slots| && Contains(r.weapons, w)
      && Get(r.weapons, w) == Get(level.weapons, w).(ammo := left)
      && (forall i :: 0 <= i < |level.weapons.slots| && i != w.index ==> r.weapons.slots[i] == level.weapons.slots[i])
      && (fired ==> r.projectiles.slots == level.projectiles.slots + [Some(Projectile(w))])
      && (!fired ==> r.projectiles == level.projectiles)
  {
    if !Contains(level.weapons, w) then level
    else
      var weapon := Get(level.weapons, w);
      var (fired, left) := env.tryShoot(weapon, env.time);
      var tried := level.(weapons := Set(level.weapons, w, weapon.(ammo := left)));
      if fired then CreateProjectileIn(tried, w) else tried
  }

  // ---------------------------------------------------------------------------------------
  // Weapons stay with their carriers

  /**
   * The character in slot `i` carries only live weapons it owns, none of them twice. As a
   * weapon has one owner, no two characters carry the same weapon.
   */
  predicate CarriesOwn(weapons: Pool<Weapon>, i: nat, a: Actor)
  {
    && Distinct(a.weapons)
    && forall k :: 0 <= k < |a.weapons| ==>
         Contains(weapons, a.weapons[k]) && Get(weapons, a.weapons[k]).owner == Slot(i)
  }

  /**
   * What the level keeps true between messages: every live character carries only live
   * weapons of its own, each once. The handlers index the weapon pool with carried handles,
   * and this is what makes those reads safe.
   */
  predicate WellArmed(level: Level)
  {
    forall i :: 0 <= i < |level.actors.slots| && level.actors.slots[i].Some? ==>
      CarriesOwn(level.weapons, i, level.actors.slots[i].value)
  }

  /** A character of a well-armed level is armed, with distinct weapons. */
  lemma WellArmedActor(level: Level, actor: Handle)
    requires WellArmed(level) && Contains(level.actors, actor)
    ensures Armed(level, Get(level.actors, actor)) && Distinct(Get(level.actors, actor).weapons)
  {
    assert CarriesOwn(level.weapons, actor.index, level.actors.slots[actor.index].value);
  }

  /** Every live weapon of `before` is still live in `after`, with the same owner. */
  predicate KeepsOwners(before: Pool<Weapon>, after: Pool<Weapon>)
  {
    && |after.slots| >= |before.slots|
    && forall i :: 0 <= i < |before.slots| && before.slots[i].Some? ==>
         after.slots[i].Some? && after.slots[i].value.owner == before.slots[i].value.owner
  }

  /**
   * A level stays well armed when its weapons keep their owners and every live character
   * was already live in the same slot, carrying the same weapons.
   */
  lemma KeepsArmed(level: Level, r: Level)
    requires WellArmed(level)
    requires KeepsOwners(level.weapons, r.weapons)
    requires forall i :: 0 <= i < |r.actors.slots| && r.actors.slots[i].Some? ==>
      i < |level.actors.slots| && level.actors.slots[i].Some? &&
      r.actors.slots[i].value.weapons == level.actors.slots[i].value.weapons
    ensures WellArmed(r)
  {
    forall i | 0 <= i < |r.actors.slots| && r.actors.slots[i].Some?
      ensures CarriesOwn(r.weapons, i, r.actors.slots[i].value)
    {
      assert CarriesOwn(level.weapons, i, level.actors.slots[i].value);
    }
  }

  /** A new weapon given to a character is live, owned by it, and carried once. */
  lemma GiveNewWeaponArmed(level: Level, actor: Handle, kind: WeaponKind, initialAmmo: nat)
    requires WellArmed(level)
    ensures WellArmed(GiveNewWeaponTo(level, actor, kind, initialAmmo))
  {
    var r := GiveNewWeaponTo(level, actor, kind, initialAmmo);
    if Contains(level.actors, actor) {
      var h := Slot(|level.weapons.slots|);
      forall i | 0 <= i < |r.actors.slots| && r.actors.slots[i].Some?
        ensures CarriesOwn(r.weapons, i, r.actors.slots[i].value)
      {
        var before := level.actors.slots[i].value;
        assert CarriesOwn(level.weapons, i, before);
        if i == actor.index {
          assert r.actors.slots[i].value.weapons == before.weapons + [h];
          assert h !in before.weapons;
        }
      }
    }
  }

  /** Giving several new weapons, one after another, keeps the level well armed. */
  lemma {:induction false} GiveWeaponsArmed(level: Level, actor: Handle, kinds: seq<WeaponKind>, initialAmmo: WeaponKind -> nat)
    requires WellArmed(level) && Contains(level.actors, actor)
    ensures WellArmed(GiveWeapons(level, actor, kinds, initialAmmo))
    decreases |kinds|
  {
    if |kinds| > 0 {
      var n := |kinds| - 1;
      GiveWeaponsArmed(level, actor, kinds[..n], initialAmmo);
      GiveNewWeaponArmed(GiveWeapons(level, actor, kinds[..n], initialAmmo), actor, kinds[n], initialAmmo(kinds[n]));
    }
  }

  /** A character entering the level, with its new weapons, keeps the level well armed. */
  lemma EnterArmed(level: Level, body: Actor, position: Point, kinds: seq<WeaponKind>, initialAmmo: WeaponKind -> nat)
    requires WellArmed(level)
    ensures WellArmed(Enter(level, body, position, kinds, initialAmmo).0)
  {
    var (actors, h) := Spawn(level.actors, body.(position := position, weapons := []));
    var entered := level.(actors := actors);
    forall i | 0 <= i < |actors.slots| && actors.slots[i].Some?
      ensures CarriesOwn(entered.weapons, i, actors.slots[i].value)
    {
      if i < |level.actors.slots| {
        assert actors.slots[i] == level.actors.slots[i];
      }
    }
    GiveWeaponsArmed(entered, h, kinds, initialAmmo);
  }

  /**
   * Removing a character keeps the others well armed: the weapons freed are its own, and a
   * weapon another character carries is owned by that other character, so it stays.
   */
  lemma RemoveActorArmed(level: Level, actor: Handle, ground: Point -> Point)
    requires WellArmed(level)
    ensures Contains(level.actors, actor) ==>
      Armed(level, Get(level.actors, actor)) && Distinct(Get(level.actors, actor).weapons)
    ensures WellArmed(RemoveActorFrom(level, actor, ground))
  {
    if Contains(level.actors, actor) {
      WellArmedActor(level, actor);
      var a := Get(level.actors, actor);
      var r := RemoveActorFrom(level, actor, ground);
      RemoveActorCascade(level, actor, ground);
      assert CarriesOwn(level.weapons, actor.index, a);
      forall i | 0 <= i < |r.actors.slots| && r.actors.slots[i].Some?
        ensures CarriesOwn(r.weapons, i, r.actors.slots[i].value)
      {
        var other := level.actors.slots[i].value;
        assert r.actors.slots[i] == level.actors.slots[i];
        assert CarriesOwn(level.weapons, i, other);
        forall k | 0 <= k < |other.weapons|
          ensures Contains(r.weapons, other.weapons[k]) && Get(r.weapons, other.weapons[k]).owner == Slot(i)
        {
          var w := other.weapons[k];
          assert Get(level.weapons, w).owner == Slot(i) != Slot(actor.index);
          assert w !in a.weapons;
          assert r.weapons.slots[w.index] == level.weapons.slots[w.index];
        }
      }
    }
  }

  /** Giving an item keeps the level well armed, whichever branch it takes. */
  lemma GiveItemArmed(level: Level, actor: Handle, kind: ItemKind, initialAmmo: WeaponKind -> nat)
    requires WellArmed(level)
    requires Contains(level.actors, actor) ==> kind != RocketLauncher
    ensures Contains(level.actors, actor) ==> Armed(level, Get(level.actors, actor))
    ensures WellArmed(GiveItemTo(level, actor, kind, initialAmmo))
  {
    if Contains(level.actors, actor) {
      WellArmedActor(level, actor);
      var a := Get(level.actors, actor);
      var r := GiveItemTo(level, actor, kind, initialAmmo);
      var k := if ItemWeapon(kind).Some? then ItemWeapon(kind).value else if kind != Medkit then AmmoWeapon(kind).value else WeaponKind.M4;
      var first := FirstOfKind(level.weapons, a.weapons, k);
      if kind == Medkit || first.Some? {
        KeepsArmed(level, r);
      } else if ItemWeapon(kind).Some? {
        GiveNewWeaponArmed(level, actor, k, initialAmmo(k));
      }
    }
  }

  /** Picking up an item keeps the level well armed. */
  lemma PickUpArmed(level: Level, actor: Handle, item: Handle, initialAmmo: WeaponKind -> nat)
    requires WellArmed(level)
    requires Contains(level.actors, actor) && Contains(level.items, item) ==> Get(level.items, item).kind != RocketLauncher
    ensures Contains(level.actors, actor) && Contains(level.items, item) ==> Armed(level, Get(level.actors, actor))
    ensures WellArmed(PickUp(level, actor, item, initialAmmo).0)
  {
    if Contains(level.actors, actor) && Contains(level.items, item) {
      WellArmedActor(level, actor);
      var it := Get(level.items, item);
      GiveItemArmed(level.(items := Set(level.items, item, it.(pickedUp := true))), actor, it.kind, initialAmmo);
    }
  }

  /**
   * A new level: the items the map analysis found, each where its node stands, not picked
   * up and without a lifetime; no character, weapon or projectile yet; the map's spawn
   * points and death zones; then the player, spawned with its weapons.
   */
  function NewLevel(found: Analysis, env: Env): (r: Level)
    ensures WellArmed(r)
    ensures Contains(r.actors, r.player) && Get(r.actors, r.player).kind == PlayerActor
    ensures r.spawnPoints == found.spawnPoints && r.deathZones == found.deathZones
    ensures |r.items.slots| == |found.items|
    ensures forall i :: 0 <= i < |found.items| ==> r.items.slots[i] == Some(Item(found.items[i].0, found.items[i].1, None, false))
  {
    var items := seq(|found.items|, i requires 0 <= i < |found.items| => Some(Item(found.items[i].0, found.items[i].1, None, false)));
    var empty := Level(NoHandle, Pool([]), Pool([]), Pool(items), Pool([]), found.spawnPoints, found.deathZones);
    var index := SuitableSpawnPoint(empty.spawnPoints, ActorPositions(empty.actors), env.distance, env.random);
    EnterArmed(empty, env.playerBody.(kind := PlayerActor), PlayerSpawnPosition(empty.spawnPoints, index),
               PlayerWeapons, env.initialAmmo);
    SpawnPlayerIn(empty, env)
  }

  // ---------------------------------------------------------------------------------------
  // Dispatching messages

  /**
   * What the handlers demand of a message beyond a well-armed level: no present character
   * is given a rocket launcher item (the game declares that branch unreachable), and a
   * weapon to show or hide exists (it is read without a check).
   */
  predicate Handleable(level: Level, m: Message)
  {
    match m
    case GiveItem(a, k) => Contains(level.actors, a) ==> k != RocketLauncher
    case PickUpItem(a, i) =>
      Contains(level.actors, a) && Contains(level.items, i) ==> Get(level.items, i).kind != RocketLauncher
    case ShowWeapon(w, _) => Contains(level.weapons, w)
    case _ => true
  }

  /** The messages whose effect lies outside the level's own state (sound, scene effects, visibility, the match flow). */
  predicate Passive(m: Message)
  {
    m.PlaySound? || m.EndMatch? || m.OtherMessage? || m.CreateEffect? || m.ShowWeapon?
  }

  /**
   * Reacts to one message: the new level and the messages sent while handling it. Only
   * picking up an item sends anything; only removing a character frees anything; the
   * player changes only when it spawns or is removed; the map's spawn points and death
   * zones never change.
   */
  function HandleMessage(level: Level, m: Message, env: Env): (r: (Level, seq<Message>))
    requires WellArmed(level) && Handleable(level, m)
    ensures WellArmed(r.0)
  {
    match m
    case GiveNewWeapon(a, k) =>
      GiveNewWeaponArmed(level, a, k, env.initialAmmo(k));
      (GiveNewWeaponTo(level, a, k, env.initialAmmo(k)), [])
    case AddBot(k, p) =>
      EnterArmed(level, env.botBody(k).(kind := BotActor), p, [WeaponKind.Ak47], env.initialAmmo);
      (AddBotIn(level, k, p, env).0, [])
    case RemoveActor(a) =>
      RemoveActorArmed(level, a, env.ground);
      (RemoveActorFrom(level, a, env.ground), [])
    case GiveItem(a, k) =>
      GiveItemArmed(level, a, k, env.initialAmmo);
      (GiveItemTo(level, a, k, env.initialAmmo), [])
    case PickUpItem(a, i) =>
      PickUpArmed(level, a, i, env.initialAmmo);
      PickUp(level, a, i, env.initialAmmo)
    case ShootWeapon(w) =>
      KeepsArmed(level, ShootWeaponIn(level, w, env));
      (ShootWeaponIn(level, w, env), [])
    case CreateProjectile(owner) => (CreateProjectileIn(level, owner), [])
    case SpawnBot(k) =>
      var index := SuitableSpawnPoint(level.spawnPoints, ActorPositions(level.actors), env.distance, env.random);
      EnterArmed(level, env.botBody(k).(kind := BotActor), BotSpawnPosition(level.spawnPoints, index),
                 [WeaponKind.Ak47], env.initialAmmo);
      (SpawnBotIn(level, k, env), [])
    case DamageActor(a, who, amount) =>
      KeepsArmed(level, DamageActorIn(level, a, who, amount, env.time));
      (DamageActorIn(level, a, who, amount, env.time), [])
    case SpawnPlayer =>
      var index := SuitableSpawnPoint(level.spawnPoints, ActorPositions(level.actors), env.distance, env.random);
      EnterArmed(level, env.playerBody.(kind := PlayerActor), PlayerSpawnPosition(level.spawnPoints, index),
                 PlayerWeapons, env.initialAmmo);
      (SpawnPlayerIn(level, env), [])
    case SpawnItem(k, p, adjust, lifetime) => (SpawnItemIn(level, k, p, adjust, lifetime, env.ground), [])
    case _ => (level, [])
  }

  /**
   * Apart from removing a character or spawning the player, no message frees anything,
   * replaces the player or alters the map's spawn points and death zones.
   */
  lemma HandlersOnlyAdd(level: Level, m: Message, env: Env)
    requires WellArmed(level) && Handleable(level, m)
    ensures !m.RemoveActor? && !m.SpawnPlayer? ==> Grows(level, HandleMessage(level, m, env).0)
  {
  }

  /**
   * The player changes only when it spawns, becoming a new player character, or when the
   * existing player is removed; the map's spawn points and death zones never change.
   */
  lemma HandlersKeepPlayer(level: Level, m: Message, env: Env)
    requires WellArmed(level) && Handleable(level, m)
    ensures var r := HandleMessage(level, m, env).0;
      && (m.SpawnPlayer? ==>
            Grows(level, r.(player := level.player)) &&
            Contains(r.actors, r.player) && Get(r.actors, r.player).kind == PlayerActor)
      && (m.RemoveActor? ==> (r.player != level.player <==> m.actor == level.player && Contains(level.actors, m.actor)))
      && r.spawnPoints == level.spawnPoints && r.deathZones == level.deathZones
  {
  }

  /**
   * Removing the player leaves the level without one, and the next check for the end of
   * the match reads the missing player: it fails.
   */
  lemma RemovedPlayerBreaksEnding(level: Level, env: Env)
    requires WellArmed(level) && Contains(level.actors, level.player)
    ensures var r := HandleMessage(level, RemoveActor(level.player), env).0;
      r.player == NoHandle && GameEnding(r) == Err(NoHandle)
  {
  }

  /**
   * Sound, effects, visibility and match-flow messages leave the level as it is, and only
   * picking up an item sends a message of its own.
   */
  lemma PassiveMessages(level: Level, m: Message, env: Env)
    requires WellArmed(level) && Handleable(level, m)
    ensures Passive(m) ==> HandleMessage(level, m, env).0 == level
    ensures !m.PickUpItem? ==> HandleMessage(level, m, env).1 == []
  {
  }
}
