/** The three small integer enumerations of the Commons grid:
    agent actions (0..7), agent orientations (0..3) and grid cells (0..2),
    together with the cyclic rotation of orientations. */
module Enums {
  import opened Wrappers

  /** `AgentAction`: the eight discrete actions an agent can take. */
  datatype Action =
    | StepForward | StepBackward | StepLeft | StepRight
    | RotateLeft | RotateRight | StandStill | Tag

  /** Number of actions (`AgentAction.size()`). */
  const ActionCount := 8

  function ActionValue(a: Action): (v: int)
    ensures 0 <= v < ActionCount
  {
    match a
    case StepForward => 0
    case StepBackward => 1
    case StepLeft => 2
    case StepRight => 3
    case RotateLeft => 4
    case RotateRight => 5
    case StandStill => 6
    case Tag => 7
  }

  /** `AgentAction(v)`: the member with value `v`, or `None` where Python raises ValueError. */
  function ActionOf(v: int): (r: Option<Action>)
    ensures r.Some? <==> 0 <= v < ActionCount
    ensures r.Some? ==> ActionValue(r.value) == v
  {
    if v == 0 then Some(StepForward)
    else if v == 1 then Some(StepBackward)
    else if v == 2 then Some(StepLeft)
    else if v == 3 then Some(StepRight)
    else if v == 4 then Some(RotateLeft)
    else if v == 5 then Some(RotateRight)
    else if v == 6 then Some(StandStill)
    else if v == 7 then Some(Tag)
    else None
  }

  lemma ActionValueRoundTrip(a: Action)
    ensures ActionOf(ActionValue(a)) == Some(a)
  {
  }

  /** `AgentOrientation`: the four cardinal directions. */
  datatype Orientation = Up | Right | Down | Left

  /** Number of orientations (`AgentOrientation.size()`). */
  const OrientationCount := 4

  function OrientationValue(o: Orientation): (v: int)
    ensures 0 <= v < OrientationCount
  {
    match o
    case Up => 0
    case Right => 1
    case Down => 2
    case Left => 3
  }

  /** `AgentOrientation(v)`, or `None` where Python raises ValueError. */
  function OrientationOf(v: int): (r: Option<Orientation>)
    ensures r.Some? <==> 0 <= v < OrientationCount
    ensures r.Some? ==> OrientationValue(r.value) == v
  {
    if v == 0 then Some(Up)
    else if v == 1 then Some(Right)
    else if v == 2 then Some(Down)
    else if v == 3 then Some(Left)
    else None
  }

  lemma OrientationValueRoundTrip(o: Orientation)
    ensures OrientationOf(OrientationValue(o)) == Some(o)
  {
  }

  /** `rotate_left`: the value minus one, modulo 4 (Python's `%` is never
      negative for a positive divisor, and neither is Dafny's). */
  function TurnLeft(o: Orientation): (r: Orientation)
    ensures OrientationValue(r) == (OrientationValue(o) + 3) % OrientationCount
  {
    OrientationOf((OrientationValue(o) - 1) % OrientationCount).value
  }

  /** `rotate_right`: the value plus one, modulo 4. */
  function TurnRight(o: Orientation): (r: Orientation)
    ensures OrientationValue(r) == (OrientationValue(o) + 1) % OrientationCount
  {
    OrientationOf((OrientationValue(o) + 1) % OrientationCount).value
  }

  /** Turning left and turning right undo each other. */
  lemma TurnsAreInverse(o: Orientation)
    ensures TurnRight(TurnLeft(o)) == o
    ensures TurnLeft(TurnRight(o)) == o
  {
  }

  /** Four quarter turns in either direction are the identity, and no fewer are. */
  lemma FourTurnsAreIdentity(o: Orientation)
    ensures TurnLeft(TurnLeft(TurnLeft(TurnLeft(o)))) == o
    ensures TurnRight(TurnRight(TurnRight(TurnRight(o)))) == o
    ensures TurnLeft(o) != o && TurnRight(o) != o
    ensures TurnLeft(TurnLeft(o)) == TurnRight(TurnRight(o)) != o
  {
    match o
    case Up =>
    case Right =>
    case Down =>
    case Left =>
  }

  /** `GridCell`: what a grid coordinate holds. */
  datatype Cell = Empty | Resource | Agent

  function CellValue(c: Cell): (v: int)
    ensures 0 <= v < 3
  {
    match c
    case Empty => 0
    case Resource => 1
    case Agent => 2
  }

  /** `GridCell(v)`, or `None` where Python raises ValueError. */
  function CellOf(v: int): (r: Option<Cell>)
    ensures r.Some? <==> 0 <= v < 3
    ensures r.Some? ==> CellValue(r.value) == v
  {
    if v == 0 then Some(Empty)
    else if v == 1 then Some(Resource)
    else if v == 2 then Some(Agent)
    else None
  }

  lemma CellValueRoundTrip(c: Cell)
    ensures CellOf(CellValue(c)) == Some(c)
  {
  }
}
