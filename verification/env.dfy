/** `CPRGridEnv`: the Commons environment. Agents are processed one after
    another in index order; each gets a candidate pose, a feasibility check
    against the current grid, a reward read from the cell it resolves to,
    and a grid write. Then the episode counter advances, termination is
    decided, observations are extracted and resources respawn.

    Randomness enters as oracle arguments: the initial poses, the initial
    resource mask and the per-cell respawn outcomes. */
module Env {
  import opened Wrappers
  import opened Enums
  import opened Poses
  import opened Grids
  import opened Fov

  /** Construction parameters the dynamics read (tagging and beam extents
      are declared by the source but never used by it). */
  datatype Config = Config(
    nAgents: nat,
    width: nat,
    height: nat,
    fovFront: nat,
    fovSide: nat,
    ballRadius: nat,
    maxSteps: int)

  /** `RESOURCE_COLLECTION_REWARD`; the default reward is its negation. */
  const CollectionReward := 1

  datatype State = State(elapsedSteps: int, positions: seq<Pose>, grid: Grid)

  /** The state invariant every reachable state keeps: one pose per agent,
      a `height` x `width` grid, and every agent on the grid standing on an
      AGENT cell. Poses may coincide. */
  ghost predicate Valid(cfg: Config, s: State) {
    && |s.positions| == cfg.nAgents
    && Shaped(s.grid, cfg.width, cfg.height)
    && AgentsOnAgentCells(cfg, s.grid, s.positions)
  }

  ghost predicate AgentsOnAgentCells(cfg: Config, g: Grid, ps: seq<Pose>)
    requires Shaped(g, cfg.width, cfg.height)
  {
    forall i :: 0 <= i < |ps| ==> InBounds(cfg.width, cfg.height, ps[i].x, ps[i].y) && g[ps[i].y][ps[i].x] == Agent
  }

  /** Some agent of `ps` stands at `(x, y)`. */
  predicate OccupiedBy(ps: seq<Pose>, x: int, y: int) {
    exists i :: 0 <= i < |ps| && ps[i].x == x && ps[i].y == y
  }

  // ---------------------------------------------------------------------
  // Initial grid

  /** The first loop of `_get_initial_grid`: marks each agent's cell AGENT,
      agent by agent. */
  function PlaceAgents(cfg: Config, g: Grid, ps: seq<Pose>): (r: Grid)
    requires Shaped(g, cfg.width, cfg.height)
    requires forall i :: 0 <= i < |ps| ==> InBounds(cfg.width, cfg.height, ps[i].x, ps[i].y)
    ensures Shaped(r, cfg.width, cfg.height)
    ensures forall y, x :: InBounds(cfg.width, cfg.height, x, y) ==>
              r[y][x] == (if OccupiedBy(ps, x, y) then Agent else g[y][x])
    decreases |ps|
  {
    if |ps| == 0 then g
    else
      var last := ps[|ps| - 1];
      assert InBounds(cfg.width, cfg.height, last.x, last.y);
      assert forall i :: 0 <= i < |ps| - 1 ==> ps[..|ps| - 1][i] == ps[i];
      var r := Put(PlaceAgents(cfg, g, ps[..|ps| - 1]), cfg.width, cfg.height, last.x, last.y, Agent);
      assert forall y, x :: OccupiedBy(ps, x, y) <==>
               OccupiedBy(ps[..|ps| - 1], x, y) || (x == last.x && y == last.y) by {
        forall y, x | OccupiedBy(ps, x, y)
          ensures OccupiedBy(ps[..|ps| - 1], x, y) || (x == last.x && y == last.y)
        {
          var i :| 0 <= i < |ps| && ps[i].x == x && ps[i].y == y;
          if i < |ps| - 1 {
            assert ps[..|ps| - 1][i] == ps[i];
          }
        }
        forall y, x | OccupiedBy(ps[..|ps| - 1], x, y)
          ensures OccupiedBy(ps, x, y)
        {
          var i :| 0 <= i < |ps| - 1 && ps[..|ps| - 1][i].x == x && ps[..|ps| - 1][i].y == y;
          assert ps[i] == ps[..|ps| - 1][i];
        }
      }
      r
  }

  /** The second loop of `_get_initial_grid`: every cell the random mask
      selects becomes RESOURCE unless an agent already holds it. */
  function SeedResources(cfg: Config, g: Grid, mask: seq<seq<bool>>): (r: Grid)
    requires Shaped(g, cfg.width, cfg.height) && Shaped(mask, cfg.width, cfg.height)
    ensures Shaped(r, cfg.width, cfg.height)
  {
    seq(cfg.height, y requires 0 <= y < cfg.height =>
      seq(cfg.width, x requires 0 <= x < cfg.width =>
        if mask[y][x] && g[y][x] == Empty then Resource else g[y][x]))
  }

  /** An all-EMPTY grid of the configured size (`np.full`). */
  function EmptyGrid(cfg: Config): (r: Grid)
    ensures Shaped(r, cfg.width, cfg.height)
    ensures forall y, x :: InBounds(cfg.width, cfg.height, x, y) ==> r[y][x] == Empty
  {
    seq(cfg.height, y => seq(cfg.width, x => Empty))
  }

  /** `_get_initial_grid` given the poses and the resource mask: a cell is
      AGENT exactly where some agent stands, RESOURCE exactly where the mask
      is set and no agent stands, EMPTY otherwise. */
  function InitialGrid(cfg: Config, ps: seq<Pose>, mask: seq<seq<bool>>): (r: Grid)
    requires forall i :: 0 <= i < |ps| ==> InBounds(cfg.width, cfg.height, ps[i].x, ps[i].y)
    requires Shaped(mask, cfg.width, cfg.height)
    ensures Shaped(r, cfg.width, cfg.height)
    ensures forall y, x :: InBounds(cfg.width, cfg.height, x, y) ==>
              && (r[y][x] == Agent <==> OccupiedBy(ps, x, y))
              && (r[y][x] == Resource <==> !OccupiedBy(ps, x, y) && mask[y][x])
              && (r[y][x] == Empty <==> !OccupiedBy(ps, x, y) && !mask[y][x])
  {
    SeedResources(cfg, PlaceAgents(cfg, EmptyGrid(cfg), ps), mask)
  }

  /** `reset` with the random poses and mask supplied: step counter zero, and
      a state satisfying the invariant. */
  function Reset(cfg: Config, ps: seq<Pose>, mask: seq<seq<bool>>): (s: State)
    requires |ps| == cfg.nAgents && forall i :: 0 <= i < |ps| ==> InBounds(cfg.width, cfg.height, ps[i].x, ps[i].y)
    requires Shaped(mask, cfg.width, cfg.height)
    ensures Valid(cfg, s) && s.elapsedSteps == 0 && s.positions == ps
    ensures s.grid == InitialGrid(cfg, ps, mask)
  {
    var g := InitialGrid(cfg, ps, mask);
    assert forall i :: 0 <= i < |ps| ==> OccupiedBy(ps, ps[i].x, ps[i].y);
    State(0, ps, g)
  }

  // ---------------------------------------------------------------------
  // Feasibility and per-cell queries

  /** `_is_position_in_grid`. */
  predicate IsPositionInGrid(cfg: Config, p: Pose) {
    if p.x < 0 || p.x >= cfg.width then false
    else if p.y < 0 || p.y >= cfg.height then false
    else true
  }

  /** `_is_position_occupied`: the cell holds an agent. */
  predicate IsPositionOccupied(cfg: Config, g: Grid, p: Pose)
    requires Shaped(g, cfg.width, cfg.height) && InBounds(cfg.width, cfg.height, p.x, p.y)
  {
    g[p.y][p.x] == Agent
  }

  /** `_is_move_feasible`: inside the grid and not onto an AGENT cell; the
      cell is only read once the pose is known to be inside. */
  predicate IsMoveFeasible(cfg: Config, g: Grid, p: Pose)
    requires Shaped(g, cfg.width, cfg.height)
  {
    IsPositionInGrid(cfg, p) && !IsPositionOccupied(cfg, g, p)
  }

  lemma MoveFeasibleIff(cfg: Config, g: Grid, p: Pose)
    requires Shaped(g, cfg.width, cfg.height)
    ensures IsMoveFeasible(cfg, g, p) <==>
              0 <= p.x < cfg.width && 0 <= p.y < cfg.height && g[p.y][p.x] != Agent
  {
  }

  /** `_has_resource`. */
  predicate HasResource(cfg: Config, g: Grid, p: Pose)
    requires Shaped(g, cfg.width, cfg.height) && InBounds(cfg.width, cfg.height, p.x, p.y)
  {
    g[p.y][p.x] == Resource
  }

  /** `_is_resource_depleted`: no RESOURCE cell is left. */
  predicate IsResourceDepleted(g: Grid) {
    Count(g, Resource) == 0
  }

  /** The grid is depleted exactly when no coordinate holds a resource. */
  lemma DepletedIff(cfg: Config, g: Grid)
    requires Shaped(g, cfg.width, cfg.height)
    ensures IsResourceDepleted(g) <==> forall y, x :: InBounds(cfg.width, cfg.height, x, y) ==> g[y][x] != Resource
  {
    CountZero(g, cfg.width, cfg.height, Resource);
  }

  /** `_compute_new_agent_position`: the action's candidate pose when it is
      feasible on the current grid, otherwise the agent's current pose. */
  function ComputeNewAgentPosition(cfg: Config, g: Grid, ps: seq<Pose>, h: int, a: Action): (r: Pose)
    requires Shaped(g, cfg.width, cfg.height) && 0 <= h < |ps|
    ensures InBounds(cfg.width, cfg.height, ps[h].x, ps[h].y) ==> InBounds(cfg.width, cfg.height, r.x, r.y)
    ensures r == NewPosition(ps[h], a) || r == ps[h]
    ensures r != ps[h] ==> InBounds(cfg.width, cfg.height, r.x, r.y) && g[r.y][r.x] != Agent
    ensures IsMoveFeasible(cfg, g, NewPosition(ps[h], a)) ==> r == NewPosition(ps[h], a)
    ensures !IsMoveFeasible(cfg, g, NewPosition(ps[h], a)) ==> r == ps[h]
  {
    var candidate := NewPosition(ps[h], a);
    if !IsMoveFeasible(cfg, g, candidate) then ps[h] else candidate
  }

  /** `_move_agent(h, p)`: blanks the cell of the pose currently recorded for
      agent `h` in `ps`, then marks `p` as AGENT. */
  function MoveAgent(cfg: Config, g: Grid, ps: seq<Pose>, h: int, p: Pose): (r: Grid)
    requires Shaped(g, cfg.width, cfg.height) && 0 <= h < |ps|
    requires InBounds(cfg.width, cfg.height, ps[h].x, ps[h].y) && InBounds(cfg.width, cfg.height, p.x, p.y)
    ensures Shaped(r, cfg.width, cfg.height)
    ensures r[p.y][p.x] == Agent
    ensures (ps[h].x, ps[h].y) != (p.x, p.y) ==> r[ps[h].y][ps[h].x] == Empty
    ensures forall y, x ::
              (InBounds(cfg.width, cfg.height, x, y) && (x, y) != (p.x, p.y) && (x, y) != (ps[h].x, ps[h].y)) ==>
                r[y][x] == g[y][x]
  {
    var cur := ps[h];
    var cleared := Put(g, cfg.width, cfg.height, cur.x, cur.y, Empty);
    Put(cleared, cfg.width, cfg.height, p.x, p.y, Agent)
  }

  // ---------------------------------------------------------------------
  // The move loop of `step`

  /** The loop state of `step` after some agents have moved. */
  datatype Tick = Tick(grid: Grid, positions: seq<Pose>, rewards: seq<int>)

  ghost predicate TickValid(cfg: Config, t: Tick) {
    && |t.positions| == cfg.nAgents
    && |t.rewards| == cfg.nAgents
    && Shaped(t.grid, cfg.width, cfg.height)
    && AgentsOnAgentCells(cfg, t.grid, t.positions)
    && forall h :: 0 <= h < |t.rewards| ==> t.rewards[h] == CollectionReward || t.rewards[h] == -CollectionReward
  }

  /** One iteration for agent `h`, as the source orders it: the resolved pose
      is stored in the pose list first, the reward is read from the cell it
      resolves to, and only then `_move_agent` runs, so it blanks the cell
      of the pose just stored rather than the one the agent left. */
  function MoveOne(cfg: Config, t: Tick, h: nat, a: Action): (r: Tick)
    requires TickValid(cfg, t) && h < cfg.nAgents
    ensures TickValid(cfg, r)
  {
    var newPos := ComputeNewAgentPosition(cfg, t.grid, t.positions, h, a);
    var ps := t.positions[h := newPos];
    var rewards := if HasResource(cfg, t.grid, newPos) then t.rewards[h := CollectionReward] else t.rewards;
    var g := MoveAgent(cfg, t.grid, ps, h, newPos);
    assert AgentsOnAgentCells(cfg, g, ps) by {
      forall i | 0 <= i < |ps| ensures InBounds(cfg.width, cfg.height, ps[i].x, ps[i].y) && g[ps[i].y][ps[i].x] == Agent {
        if i != h {
          assert ps[i] == t.positions[i];
        }
      }
    }
    Tick(g, ps, rewards)
  }

  /** The loop state before any agent has moved: the step's poses and grid,
      and every reward at its default. */
  function StartTick(cfg: Config, s: State): (t: Tick)
    requires Valid(cfg, s)
    ensures TickValid(cfg, t)
    ensures forall h :: 0 <= h < |t.rewards| ==> t.rewards[h] == -CollectionReward
  {
    Tick(s.grid, s.positions, seq(cfg.nAgents, _ => -CollectionReward))
  }

  /** `tr` lists the loop states of `step` for agents `0 .. n-1`: it starts
      from `StartTick`, and entry `k + 1` is entry `k` after agent `k`'s
      turn. */
  ghost predicate IsTrace(cfg: Config, s: State, actions: seq<Action>, tr: seq<Tick>, n: nat)
    requires Valid(cfg, s) && |actions| == cfg.nAgents && n <= cfg.nAgents
  {
    && |tr| == n + 1
    && tr[0] == StartTick(cfg, s)
    && (forall k :: 0 <= k <= n ==> TickValid(cfg, tr[k]))
    && (forall k {:trigger MoveOne(cfg, tr[k], k, actions[k])} :: 0 <= k < n ==> tr[k + 1] == MoveOne(cfg, tr[k], k, actions[k]))
  }

  /** The loop states once agents `0 .. n-1` have taken their turns, in
      index order. */
  function Ticks(cfg: Config, s: State, actions: seq<Action>, n: nat): (tr: seq<Tick>)
    requires Valid(cfg, s) && |actions| == cfg.nAgents && n <= cfg.nAgents
    ensures IsTrace(cfg, s, actions, tr, n)
  {
    if n == 0 then [StartTick(cfg, s)]
    else
      var prev := Ticks(cfg, s, actions, n - 1);
      TraceExtend(cfg, s, actions, prev, n);
      prev + [MoveOne(cfg, prev[n - 1], n - 1, actions[n - 1])]
  }

  /** A trace for agents `0 .. n-2` followed by agent `n - 1`'s turn is a
      trace for agents `0 .. n-1`. */
  lemma TraceExtend(cfg: Config, s: State, actions: seq<Action>, prev: seq<Tick>, n: nat)
    requires Valid(cfg, s) && |actions| == cfg.nAgents && 0 < n <= cfg.nAgents
    requires IsTrace(cfg, s, actions, prev, n - 1)
    ensures IsTrace(cfg, s, actions, prev + [MoveOne(cfg, prev[n - 1], n - 1, actions[n - 1])], n)
  {
    var tr := prev + [MoveOne(cfg, prev[n - 1], n - 1, actions[n - 1])];
    forall k | 0 <= k <= n ensures TickValid(cfg, tr[k]) {
      if k < n {
        assert tr[k] == prev[k];
      }
    }
    forall k | 0 <= k < n ensures tr[k + 1] == MoveOne(cfg, tr[k], k, actions[k]) {
      assert tr[k] == prev[k];
      if k < n - 1 {
        assert tr[k + 1] == prev[k + 1];
      }
    }
  }

  /** The whole move loop of `step`. */
  function MoveAgents(cfg: Config, s: State, actions: seq<Action>): (t: Tick)
    requires Valid(cfg, s) && |actions| == cfg.nAgents
    ensures TickValid(cfg, t)
  {
    Ticks(cfg, s, actions, cfg.nAgents)[cfg.nAgents]
  }

  // ---------------------------------------------------------------------
  // Respawn

  /** `_respawn_probability`: the chance that an EMPTY cell with `l` resources
      nearby regrows one. */
  function RespawnProbability(l: int): (p: real)
    ensures 0.0 <= p <= 0.1
    ensures p == 0.0 <==> l <= 0
    ensures 1 <= l <= 2 ==> p == 0.01
    ensures 3 <= l <= 4 ==> p == 0.05
    ensures l > 4 ==> p == 0.1
  {
    if l == 1 || l == 2 then 0.01
    else if l == 3 || l == 4 then 0.05
    else if l > 4 then 0.1
    else 0.0
  }

  /** More resources nearby never lower the respawn chance. */
  lemma RespawnProbabilityMonotone(l1: int, l2: int)
    requires l1 <= l2
    ensures RespawnProbability(l1) <= RespawnProbability(l2)
  {
  }

  /** `_respawn_resources` with the Bernoulli outcomes given per cell:
      `regrow[y][x]` is the draw for cell `(x, y)`. */
  function RespawnResources(cfg: Config, g: Grid, regrow: seq<seq<bool>>): (r: Grid)
    requires Shaped(g, cfg.width, cfg.height) && Shaped(regrow, cfg.width, cfg.height)
    ensures Shaped(r, cfg.width, cfg.height)
    ensures forall y, x :: InBounds(cfg.width, cfg.height, x, y) && r[y][x] != g[y][x] ==>
              g[y][x] == Empty && r[y][x] == Resource
    ensures forall y, x :: InBounds(cfg.width, cfg.height, x, y) && g[y][x] == Empty ==>
              (r[y][x] == Resource <==> regrow[y][x])
  {
    seq(cfg.height, y requires 0 <= y < cfg.height =>
      seq(cfg.width, x requires 0 <= x < cfg.width =>
        if g[y][x] == Empty && regrow[y][x] then Resource else g[y][x]))
  }

  /** Respawning never touches an AGENT cell, so every agent still stands on one. */
  lemma RespawnKeepsAgents(cfg: Config, g: Grid, regrow: seq<seq<bool>>, ps: seq<Pose>)
    requires Shaped(g, cfg.width, cfg.height) && Shaped(regrow, cfg.width, cfg.height)
    requires AgentsOnAgentCells(cfg, g, ps)
    ensures AgentsOnAgentCells(cfg, RespawnResources(cfg, g, regrow), ps)
  {
  }

  // ---------------------------------------------------------------------
  // Observations and the step

  /** What `step` returns as observations: the loop rebinds the variable to
      each agent's observation in turn, so the last agent's remains; with no
      agents it stays the empty list. */
  datatype StepObservation = NoAgents | LastAgent(view: seq<seq<Color>>)

  /** Every agent from `i` on gets an observation without raising. */
  ghost predicate ObservableFrom(cfg: Config, g: Grid, ps: seq<Pose>, i: nat)
    requires Shaped(g, cfg.width, cfg.height) && forall j :: 0 <= j < |ps| ==> InBounds(cfg.width, cfg.height, ps[j].x, ps[j].y)
  {
    forall j :: i <= j < |ps| ==> Observation(g, cfg.width, cfg.height, ps[j], cfg.fovFront, cfg.fovSide).Success?
  }

  /** Agents `i ..` are all observable when agent `i` is and the rest are. */
  lemma ObservableStep(cfg: Config, g: Grid, ps: seq<Pose>, i: nat)
    requires Shaped(g, cfg.width, cfg.height) && forall j :: 0 <= j < |ps| ==> InBounds(cfg.width, cfg.height, ps[j].x, ps[j].y)
    requires i < |ps|
    ensures ObservableFrom(cfg, g, ps, i) <==>
              Observation(g, cfg.width, cfg.height, ps[i], cfg.fovFront, cfg.fovSide).Success? && ObservableFrom(cfg, g, ps, i + 1)
  {
  }

  /** The observation loop from agent `i` on, `last` holding what the loop
      variable holds so far. The first failing extraction raises. */
  function ObservationLoop(cfg: Config, g: Grid, ps: seq<Pose>, i: nat, last: StepObservation)
    : (r: Result<StepObservation, FovError>)
    requires Shaped(g, cfg.width, cfg.height) && forall j :: 0 <= j < |ps| ==> InBounds(cfg.width, cfg.height, ps[j].x, ps[j].y)
    requires i <= |ps|
    ensures r.Success? <==> ObservableFrom(cfg, g, ps, i)
    ensures r.Success? && i == |ps| ==> r.value == last
    decreases |ps| - i
  {
    if i == |ps| then Success(last)
    else
      ObservableStep(cfg, g, ps, i);
      match Observation(g, cfg.width, cfg.height, ps[i], cfg.fovFront, cfg.fovSide)
      case Failure(e) => Failure(e)
      case Success(view) => ObservationLoop(cfg, g, ps, i + 1, LastAgent(view))
  }

  /** When the loop gets through, the value it leaves is the last agent's
      observation: each agent's overwrites the one before. */
  lemma {:induction false} ObservationLoopLast(cfg: Config, g: Grid, ps: seq<Pose>, i: nat, last: StepObservation)
    requires Shaped(g, cfg.width, cfg.height) && forall j :: 0 <= j < |ps| ==> InBounds(cfg.width, cfg.height, ps[j].x, ps[j].y)
    requires i < |ps|
    ensures var r := ObservationLoop(cfg, g, ps, i, last);
            r.Success? ==> r.value == LastAgent(Observation(g, cfg.width, cfg.height, ps[|ps| - 1], cfg.fovFront, cfg.fovSide).value)
    decreases |ps| - i
  {
    assert InBounds(cfg.width, cfg.height, ps[i].x, ps[i].y);
    var o := Observation(g, cfg.width, cfg.height, ps[i], cfg.fovFront, cfg.fovSide);
    if o.Success? && i + 1 < |ps| {
      ObservationLoopLast(cfg, g, ps, i + 1, LastAgent(o.value));
    }
  }

  datatype StepError = ActionCountMismatch | ObservationFailed(cause: FovError)

  /** What a call to `step` leaves behind: its return values, or the error it
      raises together with the state mutated up to that point. */
  datatype StepOutcome =
    | Stepped(state: State, observation: StepObservation, rewards: seq<int>, dones: seq<bool>)
    | Raised(state: State, error: StepError)

  /** `step(actions)`, with `regrow` the per-cell respawn draws. */
  function Step(cfg: Config, s: State, actions: seq<Action>, regrow: seq<seq<bool>>): (r: StepOutcome)
    requires Valid(cfg, s) && Shaped(regrow, cfg.width, cfg.height)
    ensures r.Raised? && r.error == ActionCountMismatch <==> |actions| != cfg.nAgents
    ensures r.Raised? && r.error == ActionCountMismatch ==> r.state == s
    ensures Valid(cfg, r.state)
    ensures r.state.elapsedSteps == if |actions| != cfg.nAgents then s.elapsedSteps else s.elapsedSteps + 1
  {
    if |actions| != cfg.nAgents then Raised(s, ActionCountMismatch)
    else
      var t := MoveAgents(cfg, s, actions);
      var elapsed := s.elapsedSteps + 1;
      var done := IsResourceDepleted(t.grid) || elapsed == cfg.maxSteps;
      var dones := seq(cfg.nAgents, _ => done);
      match ObservationLoop(cfg, t.grid, t.positions, 0, NoAgents)
      case Failure(e) => Raised(State(elapsed, t.positions, t.grid), ObservationFailed(e))
      case Success(obs) =>
        var g := RespawnResources(cfg, t.grid, regrow);
        RespawnKeepsAgents(cfg, t.grid, regrow, t.positions);
        Stepped(State(elapsed, t.positions, g), obs, t.rewards, dones)
  }
}
