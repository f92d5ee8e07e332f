/** Properties of the move loop and of `step` as the source writes them:
    what a reward means, where collected resources go, which cells the loop
    can change, and which actions can never take effect. */
module EnvProperties {
  import opened Wrappers
  import opened Enums
  import opened Poses
  import opened Grids
  import opened Fov
  import opened Env

  /** Number of agents whose reward is the collection reward. */
  function Collected(rs: seq<int>): nat {
    if |rs| == 0 then 0 else Indicator(rs[0] == CollectionReward) + Collected(rs[1..])
  }

  lemma {:induction false} CollectedUpdate(rs: seq<int>, i: int, v: int)
    requires 0 <= i < |rs|
    ensures Collected(rs[i := v]) == Collected(rs) - Indicator(rs[i] == CollectionReward) + Indicator(v == CollectionReward)
  {
    if i == 0 {
      assert rs[i := v][1..] == rs[1..];
    } else {
      assert rs[i := v][1..] == rs[1..][i - 1 := v];
      CollectedUpdate(rs[1..], i - 1, v);
    }
  }

  lemma {:induction false} CollectedNone(rs: seq<int>)
    requires forall i :: 0 <= i < |rs| ==> rs[i] != CollectionReward
    ensures Collected(rs) == 0
  {
    if |rs| > 0 {
      assert forall i :: 0 <= i < |rs| - 1 ==> rs[1..][i] == rs[i + 1];
      CollectedNone(rs[1..]);
    }
  }

  /** Actions whose candidate pose stands on the agent's own cell. */
  predicate InPlace(a: Action) {
    a == RotateLeft || a == RotateRight || a == StandStill || a == Tag
  }

  /** One iteration resolves agent `h`'s pose and sets its reward to the
      collection reward exactly when the resolved cell holds a resource. */
  lemma MoveOneFrame(cfg: Config, t: Tick, h: nat, a: Action)
    requires TickValid(cfg, t) && h < cfg.nAgents
    ensures var np := ComputeNewAgentPosition(cfg, t.grid, t.positions, h, a);
            var r := MoveOne(cfg, t, h, a);
            && InBounds(cfg.width, cfg.height, np.x, np.y)
            && r.positions[h] == np
            && r.rewards[h] == (if t.grid[np.y][np.x] == Resource then CollectionReward else t.rewards[h])
  {
  }

  /** One iteration leaves every other agent's pose and reward alone. */
  lemma MoveOneKeeps(cfg: Config, t: Tick, h: nat, a: Action, k: nat)
    requires TickValid(cfg, t) && h < cfg.nAgents && k < cfg.nAgents && k != h
    ensures MoveOne(cfg, t, h, a).positions[k] == t.positions[k]
    ensures MoveOne(cfg, t, h, a).rewards[k] == t.rewards[k]
  {
  }

  /** One iteration writes AGENT at the resolved pose and changes no other
      cell: the blanking in `_move_agent` hits that same cell, because the
      pose list already holds the new pose, so the cell the agent left keeps
      its AGENT mark. */
  lemma MoveOneGrid(cfg: Config, t: Tick, h: nat, a: Action)
    requires TickValid(cfg, t) && h < cfg.nAgents
    ensures var np := ComputeNewAgentPosition(cfg, t.grid, t.positions, h, a);
            && InBounds(cfg.width, cfg.height, np.x, np.y)
            && MoveOne(cfg, t, h, a).grid == Put(t.grid, cfg.width, cfg.height, np.x, np.y, Agent)
  {
    var np := ComputeNewAgentPosition(cfg, t.grid, t.positions, h, a);
    assert t.grid[np.y := t.grid[np.y][np.x := Empty]][np.y][np.x := Agent] == t.grid[np.y][np.x := Agent];
  }

  /** The cell-by-cell reading of `MoveOneGrid`. */
  lemma MoveOneCell(cfg: Config, t: Tick, h: nat, a: Action, x: int, y: int)
    requires TickValid(cfg, t) && h < cfg.nAgents && InBounds(cfg.width, cfg.height, x, y)
    ensures var np := ComputeNewAgentPosition(cfg, t.grid, t.positions, h, a);
            MoveOne(cfg, t, h, a).grid[y][x] == if (x, y) == (np.x, np.y) then Agent else t.grid[y][x]
  {
    MoveOneGrid(cfg, t, h, a);
  }

  /** One iteration removes a resource from the grid exactly when it pays the
      collection reward for it. */
  lemma MoveOneCount(cfg: Config, t: Tick, h: nat, a: Action)
    requires TickValid(cfg, t) && h < cfg.nAgents && t.rewards[h] == -CollectionReward
    ensures var r := MoveOne(cfg, t, h, a);
            Count(r.grid, Resource) + Collected(r.rewards) == Count(t.grid, Resource) + Collected(t.rewards)
  {
    var np := ComputeNewAgentPosition(cfg, t.grid, t.positions, h, a);
    MoveOneGrid(cfg, t, h, a);
    CountPut(t.grid, cfg.width, cfg.height, np.x, np.y, Agent, Resource);
    CollectedUpdate(t.rewards, h, CollectionReward);
  }

  /** Entry `k` of a trace is entry `k - 1` after agent `k - 1`'s turn. */
  lemma TraceStep(cfg: Config, s: State, actions: seq<Action>, tr: seq<Tick>, k: nat)
    requires Valid(cfg, s) && |actions| == cfg.nAgents && IsTrace(cfg, s, actions, tr, cfg.nAgents)
    requires 0 < k <= cfg.nAgents
    ensures TickValid(cfg, tr[k - 1]) && tr[k] == MoveOne(cfg, tr[k - 1], k - 1, actions[k - 1])
  {
    var j := k - 1;
    assert tr[j + 1] == MoveOne(cfg, tr[j], j, actions[j]);
  }

  /** Agent `h` has not taken its turn in trace entry `k <= h`: its pose and
      reward are still the step's starting ones. From its turn on, they are
      the ones its turn produced. */
  lemma {:induction false} TraceFrame(cfg: Config, s: State, actions: seq<Action>, tr: seq<Tick>, k: nat, h: nat)
    requires Valid(cfg, s) && |actions| == cfg.nAgents && IsTrace(cfg, s, actions, tr, cfg.nAgents)
    requires k <= cfg.nAgents && h < cfg.nAgents
    ensures k <= h ==> tr[k].positions[h] == s.positions[h] && tr[k].rewards[h] == -CollectionReward
    ensures h < k ==> tr[k].positions[h] == tr[h + 1].positions[h] && tr[k].rewards[h] == tr[h + 1].rewards[h]
  {
    if k > 0 {
      TraceFrame(cfg, s, actions, tr, k - 1, h);
      TraceStep(cfg, s, actions, tr, k);
      if h != k - 1 {
        MoveOneKeeps(cfg, tr[k - 1], k - 1, actions[k - 1], h);
      }
    }
  }

  /** Agent `h` resolves its action from the pose the step started with,
      against the grid the agents before it left behind (`tr[h]`), and ends
      the loop rewarded exactly when the cell it resolved to held a resource
      at that moment; otherwise it keeps the default reward. */
  lemma AgentTurn(cfg: Config, s: State, actions: seq<Action>, tr: seq<Tick>, h: nat)
    requires Valid(cfg, s) && |actions| == cfg.nAgents && IsTrace(cfg, s, actions, tr, cfg.nAgents)
    requires h < cfg.nAgents
    ensures var before := tr[h];
            var p := tr[cfg.nAgents].positions[h];
            var reward := tr[cfg.nAgents].rewards[h];
            && before.positions[h] == s.positions[h]
            && p == ComputeNewAgentPosition(cfg, before.grid, before.positions, h, actions[h])
            && InBounds(cfg.width, cfg.height, p.x, p.y)
            && (reward == CollectionReward <==> before.grid[p.y][p.x] == Resource)
            && (reward != CollectionReward ==> reward == -CollectionReward)
  {
    TraceFrame(cfg, s, actions, tr, h, h);
    TraceFrame(cfg, s, actions, tr, cfg.nAgents, h);
    TraceStep(cfg, s, actions, tr, h + 1);
    MoveOneFrame(cfg, tr[h], h, actions[h]);
  }

  /** Every collected resource leaves the grid and no other resource does:
      at every point of the loop, resources left plus agents rewarded equals
      the resources the step started with. */
  lemma {:induction false} TraceCollect(cfg: Config, s: State, actions: seq<Action>, tr: seq<Tick>, k: nat)
    requires Valid(cfg, s) && |actions| == cfg.nAgents && IsTrace(cfg, s, actions, tr, cfg.nAgents)
    requires k <= cfg.nAgents
    ensures Count(tr[k].grid, Resource) + Collected(tr[k].rewards) == Count(s.grid, Resource)
  {
    if k == 0 {
      assert tr[0] == StartTick(cfg, s);
      CollectedNone(tr[0].rewards);
    } else {
      TraceCollect(cfg, s, actions, tr, k - 1);
      TraceStep(cfg, s, actions, tr, k);
      TraceFrame(cfg, s, actions, tr, k - 1, k - 1);
      MoveOneCount(cfg, tr[k - 1], k - 1, actions[k - 1]);
    }
  }

  /** The loop only ever writes AGENT: every cell either keeps the content
      it had when the step started or has become AGENT. */
  lemma {:induction false} TraceOnlyMark(cfg: Config, s: State, actions: seq<Action>, tr: seq<Tick>, k: nat, x: int, y: int)
    requires Valid(cfg, s) && |actions| == cfg.nAgents && IsTrace(cfg, s, actions, tr, cfg.nAgents)
    requires k <= cfg.nAgents && InBounds(cfg.width, cfg.height, x, y)
    ensures tr[k].grid[y][x] == s.grid[y][x] || tr[k].grid[y][x] == Agent
  {
    if k > 0 {
      TraceOnlyMark(cfg, s, actions, tr, k - 1, x, y);
      TraceStep(cfg, s, actions, tr, k);
      MoveOneCell(cfg, tr[k - 1], k - 1, actions[k - 1], x, y);
    }
  }

  /** `_is_move_feasible` refuses every candidate on an AGENT cell, and the
      agent's own cell is one; so a rotation, STAND_STILL or TAG never takes
      effect, and no action ever changes an orientation. */
  lemma RotationsAlwaysRejected(cfg: Config, g: Grid, ps: seq<Pose>, h: nat, a: Action)
    requires Shaped(g, cfg.width, cfg.height) && h < |ps| && AgentsOnAgentCells(cfg, g, ps)
    ensures InPlace(a) ==> ComputeNewAgentPosition(cfg, g, ps, h, a) == ps[h]
    ensures ComputeNewAgentPosition(cfg, g, ps, h, a).o == ps[h].o
  {
    NewPositionShape(ps[h], a);
  }

  /** Agent `h`'s own turn keeps its orientation, and keeps its whole pose
      when its action is in place. */
  lemma TurnKeepsOrientation(cfg: Config, t: Tick, h: nat, a: Action)
    requires TickValid(cfg, t) && h < cfg.nAgents
    ensures MoveOne(cfg, t, h, a).positions[h].o == t.positions[h].o
    ensures InPlace(a) ==> MoveOne(cfg, t, h, a).positions[h] == t.positions[h]
  {
    MoveOneFrame(cfg, t, h, a);
    RotationsAlwaysRejected(cfg, t.grid, t.positions, h, a);
  }

  /** No turn changes an orientation, and an agent whose action is in place
      keeps its starting pose. */
  lemma TraceKeepOrientation(cfg: Config, s: State, actions: seq<Action>, tr: seq<Tick>, k: nat, h: nat)
    requires Valid(cfg, s) && |actions| == cfg.nAgents && IsTrace(cfg, s, actions, tr, cfg.nAgents)
    requires k <= cfg.nAgents && h < cfg.nAgents
    ensures tr[k].positions[h].o == s.positions[h].o
    ensures InPlace(actions[h]) ==> tr[k].positions[h] == s.positions[h]
  {
    TraceFrame(cfg, s, actions, tr, k, h);
    if h < k {
      TraceFrame(cfg, s, actions, tr, h, h);
      TraceStep(cfg, s, actions, tr, h + 1);
      TurnKeepsOrientation(cfg, tr[h], h, actions[h]);
    }
  }

  /** Over the whole loop, resources left plus agents rewarded equals the
      resources the step started with. */
  lemma MoveAgentsCollect(cfg: Config, s: State, actions: seq<Action>)
    requires Valid(cfg, s) && |actions| == cfg.nAgents
    ensures var t := MoveAgents(cfg, s, actions);
            Count(t.grid, Resource) + Collected(t.rewards) == Count(s.grid, Resource)
  {
    TraceCollect(cfg, s, actions, Ticks(cfg, s, actions, cfg.nAgents), cfg.nAgents);
  }

  /** No cell loses an AGENT mark during the loop: every cell keeps its
      content or becomes AGENT, so the cell every agent started the step on
      is still AGENT afterwards, whether or not the agent moved away. */
  lemma StartCellsStayAgent(cfg: Config, s: State, actions: seq<Action>)
    requires Valid(cfg, s) && |actions| == cfg.nAgents
    ensures var t := MoveAgents(cfg, s, actions);
            && (forall y, x :: InBounds(cfg.width, cfg.height, x, y) ==> t.grid[y][x] == s.grid[y][x] || t.grid[y][x] == Agent)
            && (forall i :: 0 <= i < cfg.nAgents ==> t.grid[s.positions[i].y][s.positions[i].x] == Agent)
  {
    var tr := Ticks(cfg, s, actions, cfg.nAgents);
    forall y, x | InBounds(cfg.width, cfg.height, x, y)
      ensures tr[cfg.nAgents].grid[y][x] == s.grid[y][x] || tr[cfg.nAgents].grid[y][x] == Agent
    {
      TraceOnlyMark(cfg, s, actions, tr, cfg.nAgents, x, y);
    }
  }

  /** Over the whole loop no orientation changes, and every agent whose
      action is a rotation, STAND_STILL or TAG ends where it started. */
  lemma MoveAgentsKeepOrientation(cfg: Config, s: State, actions: seq<Action>)
    requires Valid(cfg, s) && |actions| == cfg.nAgents
    ensures var t := MoveAgents(cfg, s, actions);
            forall i :: 0 <= i < cfg.nAgents ==>
              && t.positions[i].o == s.positions[i].o
              && (InPlace(actions[i]) ==> t.positions[i] == s.positions[i])
  {
    var tr := Ticks(cfg, s, actions, cfg.nAgents);
    forall i | 0 <= i < cfg.nAgents
      ensures tr[cfg.nAgents].positions[i].o == s.positions[i].o
      ensures InPlace(actions[i]) ==> tr[cfg.nAgents].positions[i] == s.positions[i]
    {
      TraceKeepOrientation(cfg, s, actions, tr, cfg.nAgents, i);
    }
  }

  /** A step with a well-sized action list ends with the loop's poses, and
      raises exactly when some agent's field of view cannot be extracted. */
  lemma StepPoses(cfg: Config, s: State, actions: seq<Action>, regrow: seq<seq<bool>>)
    requires Valid(cfg, s) && Shaped(regrow, cfg.width, cfg.height) && |actions| == cfg.nAgents
    ensures var r := Step(cfg, s, actions, regrow);
            var t := MoveAgents(cfg, s, actions);
            && r.state.positions == t.positions
            && (r.Raised? <==> !ObservableFrom(cfg, t.grid, t.positions, 0))
  {
  }

  /** Every agent gets the same done flag, set exactly when the moves left no
      resource on the grid or the step counter reached `max_steps`; the
      rewards are the loop's. */
  lemma StepDones(cfg: Config, s: State, actions: seq<Action>, regrow: seq<seq<bool>>)
    requires Valid(cfg, s) && Shaped(regrow, cfg.width, cfg.height) && |actions| == cfg.nAgents
    ensures var r := Step(cfg, s, actions, regrow);
            var t := MoveAgents(cfg, s, actions);
            r.Stepped? ==>
              && r.rewards == t.rewards
              && |r.dones| == cfg.nAgents
              && forall i :: 0 <= i < cfg.nAgents ==>
                   (r.dones[i] <==> IsResourceDepleted(t.grid) || s.elapsedSteps + 1 == cfg.maxSteps)
  {
  }

  /** Respawning adds resources but never removes one, so the resources
      after a completed step are at least those before it minus the ones the
      agents collected. */
  lemma StepResources(cfg: Config, s: State, actions: seq<Action>, regrow: seq<seq<bool>>)
    requires Valid(cfg, s) && Shaped(regrow, cfg.width, cfg.height) && |actions| == cfg.nAgents
    ensures var r := Step(cfg, s, actions, regrow);
            r.Stepped? ==> Count(r.state.grid, Resource) + Collected(r.rewards) >= Count(s.grid, Resource)
  {
    var t := MoveAgents(cfg, s, actions);
    MoveAgentsCollect(cfg, s, actions);
    CountGrows(t.grid, RespawnResources(cfg, t.grid, regrow), cfg.width, cfg.height, Resource);
  }

  /** The observation a completed `step` returns is the last agent's, or the
      empty list when there are no agents. */
  lemma StepObservationIsLastAgents(cfg: Config, s: State, actions: seq<Action>, regrow: seq<seq<bool>>)
    requires Valid(cfg, s) && Shaped(regrow, cfg.width, cfg.height) && |actions| == cfg.nAgents
    ensures var r := Step(cfg, s, actions, regrow);
            var t := MoveAgents(cfg, s, actions);
            r.Stepped? ==>
              if cfg.nAgents == 0 then r.observation == NoAgents
              else
                var p := t.positions[cfg.nAgents - 1];
                && InBounds(cfg.width, cfg.height, p.x, p.y)
                && r.observation == LastAgent(Observation(t.grid, cfg.width, cfg.height, p, cfg.fovFront, cfg.fovSide).value)
  {
    var t := MoveAgents(cfg, s, actions);
    StepObservationIsLoop(cfg, s, actions, regrow);
    if cfg.nAgents > 0 {
      ObservationLoopLast(cfg, t.grid, t.positions, 0, NoAgents);
    }
  }

  /** A completed step returns what the observation loop leaves, run on the
      grid and poses the move loop produced. */
  lemma StepObservationIsLoop(cfg: Config, s: State, actions: seq<Action>, regrow: seq<seq<bool>>)
    requires Valid(cfg, s) && Shaped(regrow, cfg.width, cfg.height) && |actions| == cfg.nAgents
    ensures var r := Step(cfg, s, actions, regrow);
            var t := MoveAgents(cfg, s, actions);
            r.Stepped? ==> ObservationLoop(cfg, t.grid, t.positions, 0, NoAgents) == Success(r.observation)
  {
  }

  /** A 3 x 3 world with one agent at (1, 1) facing up and a resource at
      (1, 0): stepping forward collects the resource, and afterwards both the
      cell reached and the cell left hold AGENT. */
  lemma LeftCellKeptExample()
    ensures var cfg := Config(1, 3, 3, 1, 0, 1, 100);
            var g := [[Empty, Resource, Empty], [Empty, Agent, Empty], [Empty, Empty, Empty]];
            var s := State(0, [Pose(1, 1, Up)], g);
            && Valid(cfg, s)
            && var t := MoveAgents(cfg, s, [StepForward]);
               && t.positions[0] == Pose(1, 0, Up)
               && t.rewards[0] == CollectionReward
               && t.grid[0][1] == Agent
               && t.grid[1][1] == Agent
  {
    var cfg := Config(1, 3, 3, 1, 0, 1, 100);
    var g := [[Empty, Resource, Empty], [Empty, Agent, Empty], [Empty, Empty, Empty]];
    var s := State(0, [Pose(1, 1, Up)], g);
    assert Valid(cfg, s);
    var tr := Ticks(cfg, s, [StepForward], 1);
    MoveOneFrame(cfg, tr[0], 0, StepForward);
    MoveOneGrid(cfg, tr[0], 0, StepForward);
  }

  /** At the corner (0, 0) facing left, stepping forward leaves the grid: the
      move is refused, the pose is kept and the reward is the default. */
  lemma EdgeMoveRefusedExample()
    ensures var cfg := Config(1, 3, 3, 1, 0, 1, 100);
            var g := [[Agent, Resource, Empty], [Empty, Empty, Empty], [Empty, Empty, Empty]];
            var s := State(0, [Pose(0, 0, Left)], g);
            && Valid(cfg, s)
            && var t := MoveAgents(cfg, s, [StepForward]);
               && t.positions[0] == Pose(0, 0, Left)
               && t.rewards[0] == -CollectionReward
               && t.grid[0][0] == Agent
  {
    var cfg := Config(1, 3, 3, 1, 0, 1, 100);
    var g := [[Agent, Resource, Empty], [Empty, Empty, Empty], [Empty, Empty, Empty]];
    var s := State(0, [Pose(0, 0, Left)], g);
    assert Valid(cfg, s);
    var tr := Ticks(cfg, s, [StepForward], 1);
    MoveOneFrame(cfg, tr[0], 0, StepForward);
    MoveOneGrid(cfg, tr[0], 0, StepForward);
  }
}
