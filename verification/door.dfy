/**
 * Sliding doors. Each tick a door that some actor stands near starts opening, a door
 * nobody stands near starts closing, a moving door slides by `dt` towards its end stop,
 * and the door's lights show whether it can be opened.
 */
module Doors {
  import opened Common
  import opened Pools

  datatype DoorState = Opened | Opening | Closed | Closing | Locked | Broken

  /** The state a door gets when none is given. */
  const DefaultState := Closed

  /** The unsigned 32-bit integers a state id is stored as. */
  newtype U32 = x: int | 0 <= x < 0x1_0000_0000

  datatype CodecError = InvalidDoorStateId(id: U32)

  /** The stored id of a state: its position in the declaration, from 0 to 5. */
  function Id(s: DoorState): (id: U32)
    ensures id <= 5
    ensures FromId(id) == Ok(s)
  {
    match s
    case Opened => 0
    case Opening => 1
    case Closed => 2
    case Closing => 3
    case Locked => 4
    case Broken => 5
  }

  /** Reads a stored id back; every id above 5 is an error naming the id. */
  function FromId(id: U32): (r: Result<DoorState, CodecError>)
    ensures r.Ok? <==> id <= 5
    ensures r.Err? ==> r.error == InvalidDoorStateId(id)
  {
    match id
    case 0 => Ok(Opened)
    case 1 => Ok(Opening)
    case 2 => Ok(Closed)
    case 3 => Ok(Closing)
    case 4 => Ok(Locked)
    case 5 => Ok(Broken)
    case _ => Err(InvalidDoorStateId(id))
  }

  /** Reading back a stored id gives the state that was stored, and no two states share an id. */
  lemma IdRoundTrip(s: DoorState, t: DoorState, id: U32)
    ensures FromId(Id(s)) == Ok(s)
    ensures Id(s) == Id(t) ==> s == t
    ensures FromId(id).Ok? ==> Id(FromId(id).value) == id
  {
    assert FromId(Id(s)) == Ok(s) && FromId(Id(t)) == Ok(t);
  }

  /** The offset at which a door is fully open. */
  const FullyOpen: real := 0.75

  /** How near an actor must be to the door's initial position to make it open. */
  const OpenRadius: real := 1.25

  /** A door: its state, how far it has slid from where it stands closed, and that place. */
  datatype Door = Door(state: DoorState, offset: real, initialPosition: Point)

  /** A door as made for a scene node: not slid at all. */
  function NewDoor(state: DoorState, at: Point): (d: Door)
    ensures d.state == state && d.offset == 0.0 && d.initialPosition == at
  {
    Door(state, 0.0, at)
  }

  /** True when some actor stands strictly within the open radius of the door's initial position. */
  predicate NeedToOpen(actors: seq<Point>, at: Point, distance: Metric)
  {
    exists i :: 0 <= i < |actors| && distance(actors[i], at) < OpenRadius
  }

  /** Only a closed door starts opening and only an opened door starts closing. */
  function Proximity(s: DoorState, needToOpen: bool): (r: DoorState)
    ensures r != s <==> (s == Closed && needToOpen) || (s == Opened && !needToOpen)
    ensures r != s ==> r == (if needToOpen then Opening else Closing)
  {
    if needToOpen then (if s == Closed then Opening else s)
    else if s == Opened then Closing
    else s
  }

  /** A moving door slides by `dt`; reaching an end stop clamps the offset and ends the motion. */
  function Slide(d: Door, dt: real): (r: Door)
    ensures r.initialPosition == d.initialPosition
    ensures d.state != Opening && d.state != Closing ==> r == d
    ensures r.state != d.state ==>
      (d.state == Opening && r.state == Opened && r.offset == FullyOpen) ||
      (d.state == Closing && r.state == Closed && r.offset == 0.0)
  {
    match d.state
    case Opening =>
      if d.offset < FullyOpen then
        var offset := d.offset + 1.0 * dt;
        if offset >= FullyOpen then d.(state := Opened, offset := FullyOpen) else d.(offset := offset)
      else d
    case Closing =>
      if d.offset > 0.0 then
        var offset := d.offset - 1.0 * dt;
        if offset <= 0.0 then d.(state := Closed, offset := 0.0) else d.(offset := offset)
      else d
    case _ => d
  }

  datatype Color = Green | Red

  /** What a tick does to the door's lights: show or hide them, and maybe recolour them. */
  datatype Lights = Lights(enabled: bool, color: Option<Color>)

  /** The lights for the state a tick's motion starts from. */
  function LightsFor(s: DoorState): Lights
  {
    match s
    case Closed => Lights(true, Some(Green))
    case Locked => Lights(true, Some(Red))
    case _ => Lights(false, None)
  }

  /** One door's tick: proximity first, then motion and lights from the state proximity left. */
  function UpdateDoor(d: Door, needToOpen: bool, dt: real): (r: (Door, Lights))
    ensures r.0.initialPosition == d.initialPosition
    ensures r.1.enabled <==> (d.state == Closed && !needToOpen) || d.state == Locked
    ensures r.1.color == Some(Green) <==> d.state == Closed && !needToOpen
    ensures r.1.color == Some(Red) <==> d.state == Locked
    ensures r.1.color.None? <==> !r.1.enabled
  {
    var armed := d.(state := Proximity(d.state, needToOpen));
    (Slide(armed, dt), LightsFor(armed.state))
  }

  /** What proximity does to each state, and that it does nothing to the others. */
  lemma ProximityTriggers(d: Door, needToOpen: bool, dt: real)
    ensures d.state == Closed && needToOpen ==> UpdateDoor(d, needToOpen, dt).0.state in {Opening, Opened}
    ensures d.state == Closed && !needToOpen ==> UpdateDoor(d, needToOpen, dt).0 == d
    ensures d.state == Opened && !needToOpen ==> UpdateDoor(d, needToOpen, dt).0.state in {Closing, Closed}
    ensures d.state == Opened && needToOpen ==> UpdateDoor(d, needToOpen, dt).0 == d
    ensures d.state == Closing ==> UpdateDoor(d, needToOpen, dt).0.state in {Closing, Closed}
    ensures d.state == Opening ==> UpdateDoor(d, needToOpen, dt).0.state in {Opening, Opened}
  {
  }

  /** Locked and broken doors never move and never change state. */
  lemma FrozenDoors(d: Door, needToOpen: bool, dt: real)
    requires d.state == Locked || d.state == Broken
    ensures UpdateDoor(d, needToOpen, dt).0 == d
  {
  }

  /**
   * The shape a door keeps between ticks: slid no further than its end stops, at the closed
   * stop when closed, at the open stop when opened, and short of the stop it moves towards
   * while moving.
   */
  predicate Consistent(d: Door)
  {
    && 0.0 <= d.offset <= FullyOpen
    && (d.state == Closed ==> d.offset == 0.0)
    && (d.state == Opened ==> d.offset == FullyOpen)
    && (d.state == Opening ==> d.offset < FullyOpen)
    && (d.state == Closing ==> d.offset > 0.0)
  }

  /**
   * With a non-negative `dt` a tick keeps a door's shape: the offset stays within its stops,
   * and a door that reaches a stop is clamped to it and stops moving. With a positive `dt`
   * a door left at a stop is one that is not moving.
   */
  lemma TickKeepsShape(d: Door, needToOpen: bool, dt: real)
    requires Consistent(d) && dt >= 0.0
    ensures Consistent(UpdateDoor(d, needToOpen, dt).0)
    ensures dt > 0.0 && UpdateDoor(d, needToOpen, dt).0.offset == FullyOpen ==>
      UpdateDoor(d, needToOpen, dt).0.state in {Opened, Locked, Broken}
    ensures dt > 0.0 && UpdateDoor(d, needToOpen, dt).0.offset == 0.0 ==>
      UpdateDoor(d, needToOpen, dt).0.state in {Closed, Locked, Broken}
  {
  }

  /**
   * A consistent door in motion always moves on a tick with positive `dt`: it reaches its stop
   * or its offset changes by exactly `dt`.
   */
  lemma MotionProgresses(d: Door, needToOpen: bool, dt: real)
    requires Consistent(d) && dt > 0.0
    requires Proximity(d.state, needToOpen) in {Opening, Closing}
    ensures var r := UpdateDoor(d, needToOpen, dt).0;
      r.state in {Opened, Closed} || r.offset == d.offset + dt || r.offset == d.offset - dt
  {
  }

  /** The lights go by the state the motion started from: on the tick a door finishes closing they stay dark. */
  lemma ClosingFinishesDark(d: Door, needToOpen: bool, dt: real)
    requires d.state == Closing && 0.0 < d.offset <= dt
    ensures UpdateDoor(d, needToOpen, dt).0.state == Closed
    ensures !UpdateDoor(d, needToOpen, dt).1.enabled
    ensures UpdateDoor(UpdateDoor(d, needToOpen, dt).0, false, dt).1 == Lights(true, Some(Green))
  {
  }

  /**
   * Every door of the container ticks on its own: each live door gets the tick its own
   * fields and the actor positions give it, free slots stay free, and a tick with a
   * non-negative `dt` keeps every door's shape.
   */
  method UpdateDoors(doors: Pool<Door>, actors: seq<Point>, distance: Metric, dt: real)
    returns (r: Pool<Door>, lights: seq<Option<Lights>>)
    ensures |r.slots| == |doors.slots| == |lights|
    ensures forall i :: 0 <= i < |doors.slots| && doors.slots[i].None? ==> r.slots[i].None? && lights[i].None?
    ensures forall i :: 0 <= i < |doors.slots| && doors.slots[i].Some? ==>
      var d := doors.slots[i].value;
      var u := UpdateDoor(d, NeedToOpen(actors, d.initialPosition, distance), dt);
      r.slots[i] == Some(u.0) && lights[i] == Some(u.1)
    ensures dt >= 0.0 && (forall i :: 0 <= i < |doors.slots| && doors.slots[i].Some? ==> Consistent(doors.slots[i].value)) ==>
      forall i :: 0 <= i < |r.slots| && r.slots[i].Some? ==> Consistent(r.slots[i].value)
  {
    var slots: seq<Option<Door>> := [];
    lights := [];
    var i := 0;
    while i < |doors.slots|
      invariant 0 <= i <= |doors.slots|
      invariant |slots| == |lights| == i
      invariant forall j :: 0 <= j < i && doors.slots[j].None? ==> slots[j].None? && lights[j].None?
      invariant forall j :: 0 <= j < i && doors.slots[j].Some? ==>
        var d := doors.slots[j].value;
        var u := UpdateDoor(d, NeedToOpen(actors, d.initialPosition, distance), dt);
        slots[j] == Some(u.0) && lights[j] == Some(u.1)
    {
      match doors.slots[i] {
        case None =>
          slots := slots + [None];
          lights := lights + [None];
        case Some(d) =>
          var near := NeedToOpen(actors, d.initialPosition, distance);
          var u := UpdateDoor(d, near, dt);
          slots := slots + [Some(u.0)];
          lights := lights + [Some(u.1)];
      }
      i := i + 1;
    }
    r := Pool(slots);
    if dt >= 0.0 && (forall j :: 0 <= j < |doors.slots| && doors.slots[j].Some? ==> Consistent(doors.slots[j].value)) {
      forall j | 0 <= j < |r.slots| && r.slots[j].Some?
        ensures Consistent(r.slots[j].value)
      {
        var d := doors.slots[j].value;
        TickKeepsShape(d, NeedToOpen(actors, d.initialPosition, distance), dt);
      }
    }
  }
}
