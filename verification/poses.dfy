/** `AgentPosition`: an immutable pose `(x, y, o)` on a grid whose origin is
    the upper-left corner (y grows downwards), with moves relative to the
    agent's orientation. */
module Poses {
  import opened Enums

  datatype Pose = Pose(x: int, y: int, o: Orientation)

  /** World displacement of one step forward for each orientation. */
  function ForwardDx(o: Orientation): int {
    match o
    case Up => 0
    case Right => 1
    case Down => 0
    case Left => -1
  }

  function ForwardDy(o: Orientation): int {
    match o
    case Up => -1
    case Right => 0
    case Down => 1
    case Left => 0
  }

  function MoveForward(p: Pose): (r: Pose)
    ensures r.o == p.o
    ensures r.x == p.x + ForwardDx(p.o) && r.y == p.y + ForwardDy(p.o)
  {
    match p.o
    case Up => Pose(p.x, p.y - 1, p.o)
    case Right => Pose(p.x + 1, p.y, p.o)
    case Down => Pose(p.x, p.y + 1, p.o)
    case Left => Pose(p.x - 1, p.y, p.o)
  }

  function MoveBackward(p: Pose): (r: Pose)
    ensures r.o == p.o
    ensures r.x == p.x - ForwardDx(p.o) && r.y == p.y - ForwardDy(p.o)
  {
    match p.o
    case Up => Pose(p.x, p.y + 1, p.o)
    case Right => Pose(p.x - 1, p.y, p.o)
    case Down => Pose(p.x, p.y - 1, p.o)
    case Left => Pose(p.x + 1, p.y, p.o)
  }

  /** The left of an orientation is its forward direction turned a quarter
      counter-clockwise on screen: `(dy, -dx)`. */
  function MoveLeft(p: Pose): (r: Pose)
    ensures r.o == p.o
    ensures r.x == p.x + ForwardDy(p.o) && r.y == p.y - ForwardDx(p.o)
  {
    match p.o
    case Up => Pose(p.x - 1, p.y, p.o)
    case Right => Pose(p.x, p.y - 1, p.o)
    case Down => Pose(p.x + 1, p.y, p.o)
    case Left => Pose(p.x, p.y + 1, p.o)
  }

  function MoveRight(p: Pose): (r: Pose)
    ensures r.o == p.o
    ensures r.x == p.x - ForwardDy(p.o) && r.y == p.y + ForwardDx(p.o)
  {
    match p.o
    case Up => Pose(p.x + 1, p.y, p.o)
    case Right => Pose(p.x, p.y + 1, p.o)
    case Down => Pose(p.x - 1, p.y, p.o)
    case Left => Pose(p.x, p.y - 1, p.o)
  }

  function RotateLeftPose(p: Pose): (r: Pose)
    ensures r.x == p.x && r.y == p.y && r.o == TurnLeft(p.o)
  {
    Pose(p.x, p.y, TurnLeft(p.o))
  }

  function RotateRightPose(p: Pose): (r: Pose)
    ensures r.x == p.x && r.y == p.y && r.o == TurnRight(p.o)
  {
    Pose(p.x, p.y, TurnRight(p.o))
  }

  /** `get_new_position`: dispatch on the action (the source looks the
      method up by the action's name). The candidate is not checked
      against the grid here. */
  function NewPosition(p: Pose, a: Action): Pose {
    match a
    case StepForward => MoveForward(p)
    case StepBackward => MoveBackward(p)
    case StepLeft => MoveLeft(p)
    case StepRight => MoveRight(p)
    case RotateLeft => RotateLeftPose(p)
    case RotateRight => RotateRightPose(p)
    case StandStill => p
    case Tag => p
  }

  /** Manhattan distance between the cells of two poses. */
  function CellDistance(p: Pose, q: Pose): nat {
    (if p.x <= q.x then q.x - p.x else p.x - q.x) + (if p.y <= q.y then q.y - p.y else p.y - q.y)
  }

  /** Forward and backward undo each other, whatever the orientation. */
  lemma ForwardBackwardInverse(p: Pose)
    ensures MoveBackward(MoveForward(p)) == p
    ensures MoveForward(MoveBackward(p)) == p
  {
  }

  /** Left and right strafes undo each other. */
  lemma LeftRightInverse(p: Pose)
    ensures MoveRight(MoveLeft(p)) == p
    ensures MoveLeft(MoveRight(p)) == p
  {
  }

  /** Every translation moves to a neighbouring cell: exactly one coordinate
      changes, by one, and the orientation is kept. */
  lemma StepsMoveOneCell(p: Pose)
    ensures CellDistance(p, MoveForward(p)) == 1 && MoveForward(p).o == p.o
    ensures CellDistance(p, MoveBackward(p)) == 1 && MoveBackward(p).o == p.o
    ensures CellDistance(p, MoveLeft(p)) == 1 && MoveLeft(p).o == p.o
    ensures CellDistance(p, MoveRight(p)) == 1 && MoveRight(p).o == p.o
  {
  }

  /** Strafing is stepping forward along the turned axis: a step to the left
      lands where a step forward after a left turn would, and likewise on
      the right. */
  lemma StrafeIsTurnedForward(p: Pose)
    ensures var q := MoveForward(RotateLeftPose(p)); MoveLeft(p) == Pose(q.x, q.y, p.o)
    ensures var q := MoveForward(RotateRightPose(p)); MoveRight(p) == Pose(q.x, q.y, p.o)
  {
  }

  /** Rotations change only the orientation; standing still and tagging
      leave the pose as it is; translations keep the orientation. */
  lemma NewPositionShape(p: Pose, a: Action)
    ensures a == RotateLeft ==> NewPosition(p, a) == Pose(p.x, p.y, TurnLeft(p.o))
    ensures a == RotateRight ==> NewPosition(p, a) == Pose(p.x, p.y, TurnRight(p.o))
    ensures a == StandStill || a == Tag <==> NewPosition(p, a) == p
    ensures a in {StepForward, StepBackward, StepLeft, StepRight} ==>
              NewPosition(p, a).o == p.o && CellDistance(p, NewPosition(p, a)) == 1
  {
    match a
    case RotateLeft => FourTurnsAreIdentity(p.o);
    case RotateRight => FourTurnsAreIdentity(p.o);
    case _ =>
  }
}
