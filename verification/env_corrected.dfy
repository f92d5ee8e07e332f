/** The move loop of `step` as its comments and the rest of the environment
    evidently intend it: the cell an agent leaves is blanked, and an agent's
    own cell does not block its own action, so rotations take effect. Under
    this loop the grid and the pose list stay in exact agreement. */
module EnvCorrected {
  import opened Enums
  import opened Poses
  import opened Grids
  import opened Env

  /** Distinct agents stand on distinct cells, and a cell is AGENT exactly
      when an agent stands on it. */
  ghost predicate Consistent(cfg: Config, g: Grid, ps: seq<Pose>)
    requires Shaped(g, cfg.width, cfg.height)
  {
    && (forall i :: 0 <= i < |ps| ==> InBounds(cfg.width, cfg.height, ps[i].x, ps[i].y))
    && (forall i, j :: 0 <= i < |ps| && 0 <= j < |ps| && i != j ==> (ps[i].x, ps[i].y) != (ps[j].x, ps[j].y))
    && (forall y, x :: InBounds(cfg.width, cfg.height, x, y) ==> (g[y][x] == Agent <==> OccupiedBy(ps, x, y)))
  }

  ghost predicate TickConsistent(cfg: Config, t: Tick) {
    && |t.positions| == cfg.nAgents
    && |t.rewards| == cfg.nAgents
    && Shaped(t.grid, cfg.width, cfg.height)
    && Consistent(cfg, t.grid, t.positions)
  }

  /** Feasibility with the mover's own cell counted as free. */
  predicate IsMoveFeasible(cfg: Config, g: Grid, cur: Pose, p: Pose)
    requires Shaped(g, cfg.width, cfg.height)
  {
    IsPositionInGrid(cfg, p) && (g[p.y][p.x] != Agent || (p.x == cur.x && p.y == cur.y))
  }

  /** The candidate pose when feasible, otherwise the current pose; a new
      pose is never on a cell another agent holds. */
  function ComputeNewAgentPosition(cfg: Config, g: Grid, ps: seq<Pose>, h: int, a: Action): (r: Pose)
    requires Shaped(g, cfg.width, cfg.height) && 0 <= h < |ps| && InBounds(cfg.width, cfg.height, ps[h].x, ps[h].y)
    ensures InBounds(cfg.width, cfg.height, r.x, r.y)
    ensures r == NewPosition(ps[h], a) || r == ps[h]
    ensures (r.x, r.y) != (ps[h].x, ps[h].y) ==> g[r.y][r.x] != Agent
    ensures IsMoveFeasible(cfg, g, ps[h], NewPosition(ps[h], a)) ==> r == NewPosition(ps[h], a)
    ensures !IsMoveFeasible(cfg, g, ps[h], NewPosition(ps[h], a)) ==> r == ps[h]
  {
    var candidate := NewPosition(ps[h], a);
    if IsMoveFeasible(cfg, g, ps[h], candidate) then candidate else ps[h]
  }

  /** Rotations now take effect and really turn the agent; standing still
      and tagging keep the pose. */
  lemma RotationsApplied(cfg: Config, g: Grid, ps: seq<Pose>, h: int)
    requires Shaped(g, cfg.width, cfg.height) && 0 <= h < |ps| && InBounds(cfg.width, cfg.height, ps[h].x, ps[h].y)
    ensures ComputeNewAgentPosition(cfg, g, ps, h, RotateLeft) == Pose(ps[h].x, ps[h].y, TurnLeft(ps[h].o))
    ensures ComputeNewAgentPosition(cfg, g, ps, h, RotateRight) == Pose(ps[h].x, ps[h].y, TurnRight(ps[h].o))
    ensures ComputeNewAgentPosition(cfg, g, ps, h, RotateLeft).o != ps[h].o
    ensures ComputeNewAgentPosition(cfg, g, ps, h, RotateRight).o != ps[h].o
    ensures ComputeNewAgentPosition(cfg, g, ps, h, StandStill) == ps[h]
    ensures ComputeNewAgentPosition(cfg, g, ps, h, Tag) == ps[h]
  {
    FourTurnsAreIdentity(ps[h].o);
  }

  /** The pose list with agent `h` moved to `np`, and the grid with its old
      cell blanked and `np` marked, agree again. */
  lemma MoveKeepsConsistent(cfg: Config, t: Tick, h: nat, np: Pose)
    requires TickConsistent(cfg, t) && h < cfg.nAgents
    requires InBounds(cfg.width, cfg.height, np.x, np.y)
    requires (np.x, np.y) != (t.positions[h].x, t.positions[h].y) ==> t.grid[np.y][np.x] != Agent
    ensures Consistent(cfg, MoveAgent(cfg, t.grid, t.positions, h, np), t.positions[h := np])
  {
    var cur := t.positions[h];
    var g := MoveAgent(cfg, t.grid, t.positions, h, np);
    var ps := t.positions[h := np];
    assert InBounds(cfg.width, cfg.height, cur.x, cur.y);
    // Nobody but `h` stood on `np` before the move.
    forall j | 0 <= j < |ps| && j != h
      ensures (ps[j].x, ps[j].y) != (np.x, np.y) && (ps[j].x, ps[j].y) != (cur.x, cur.y)
    {
      assert ps[j] == t.positions[j];
    }
    forall y, x | InBounds(cfg.width, cfg.height, x, y)
      ensures g[y][x] == Agent <==> OccupiedBy(ps, x, y)
    {
      if (x, y) == (np.x, np.y) {
        assert ps[h].x == x && ps[h].y == y;
      } else if (x, y) == (cur.x, cur.y) {
        assert !OccupiedBy(ps, x, y);
      } else {
        assert g[y][x] == t.grid[y][x];
        if OccupiedBy(ps, x, y) {
          var i :| 0 <= i < |ps| && ps[i].x == x && ps[i].y == y;
          assert t.positions[i] == ps[i];
        }
        if OccupiedBy(t.positions, x, y) {
          var i :| 0 <= i < |t.positions| && t.positions[i].x == x && t.positions[i].y == y;
          assert t.positions[i] == ps[i];
        }
      }
    }
  }

  /** One agent's turn with the old cell blanked: the pose is resolved and
      the reward read exactly as in the source, then `_move_agent` runs
      before the pose list is updated, so it blanks the cell the agent
      leaves. */
  function MoveOne(cfg: Config, t: Tick, h: nat, a: Action): (r: Tick)
    requires TickConsistent(cfg, t) && h < cfg.nAgents
    ensures TickConsistent(cfg, r)
    ensures var cur := t.positions[h];
            && r.positions[h] == ComputeNewAgentPosition(cfg, t.grid, t.positions, h, a)
            && ((r.positions[h].x, r.positions[h].y) != (cur.x, cur.y) ==> r.grid[cur.y][cur.x] == Empty)
  {
    var np := ComputeNewAgentPosition(cfg, t.grid, t.positions, h, a);
    var rewards := if HasResource(cfg, t.grid, np) then t.rewards[h := CollectionReward] else t.rewards;
    var g := MoveAgent(cfg, t.grid, t.positions, h, np);
    MoveKeepsConsistent(cfg, t, h, np);
    Tick(g, t.positions[h := np], rewards)
  }

  /** Agents `i ..` take their corrected turns in index order; the grid and
      the pose list stay in agreement throughout. */
  function MoveFrom(cfg: Config, t: Tick, actions: seq<Action>, i: nat): (r: Tick)
    requires TickConsistent(cfg, t) && |actions| == cfg.nAgents && i <= cfg.nAgents
    ensures TickConsistent(cfg, r)
    decreases cfg.nAgents - i
  {
    if i == cfg.nAgents then t else MoveFrom(cfg, MoveOne(cfg, t, i, actions[i]), actions, i + 1)
  }

  /** The 3 x 3 world where the source leaves a stale AGENT cell: with the
      corrected turn the agent reaches (1, 0) and (1, 1) is blanked. */
  lemma LeftCellClearedExample()
    ensures var cfg := Config(1, 3, 3, 1, 0, 1, 100);
            var g := [[Empty, Resource, Empty], [Empty, Agent, Empty], [Empty, Empty, Empty]];
            var t := Tick(g, [Pose(1, 1, Up)], [-CollectionReward]);
            && TickConsistent(cfg, t)
            && var r := MoveOne(cfg, t, 0, StepForward);
               && r.positions[0] == Pose(1, 0, Up)
               && r.grid[0][1] == Agent
               && r.grid[1][1] == Empty
  {
    var cfg := Config(1, 3, 3, 1, 0, 1, 100);
    var g := [[Empty, Resource, Empty], [Empty, Agent, Empty], [Empty, Empty, Empty]];
    var ps := [Pose(1, 1, Up)];
    forall y, x | InBounds(cfg.width, cfg.height, x, y)
      ensures g[y][x] == Agent <==> OccupiedBy(ps, x, y)
    {
      if g[y][x] == Agent {
        assert ps[0].x == x && ps[0].y == y;
      }
    }
  }
}
