# Commons grid environment and trajectory memory, in Dafny

This project models two parts of a multi-agent reinforcement-learning
repository:

- **The Commons Pool Resource (CPR) grid environment** (`CPRGridEnv`). Agents
  on a `height` x `width` grid of EMPTY, RESOURCE and AGENT cells take one
  action each per step. Agents are processed in index order. Each action
  yields a candidate pose, which is kept only when it lies inside the grid
  and off every AGENT cell. An agent that lands on a resource collects it for
  a reward of +1; every other agent gets -1. The step counter then advances
  and every agent is marked done when no resource is left or the step limit
  is reached. Observations are cut from the grid as each agent's rotated,
  padded field of view. Finally empty cells regrow resources at random.
- **The trajectory memory** (`Trajectory`, `TrajectoryPool`). A trajectory
  records (state, action, action probabilities, reward, next state, legal
  actions) tuples and computes discounted returns. A pool collects
  trajectories and serves shuffled mini-batches of their rows.

The model follows the code as written, including its surprising behaviours
(see "Findings" below). Every random draw is an argument:

- the initial poses and resource mask of `reset`;
- the per-cell respawn outcomes of `step`;
- the permutation `torch.randperm` returns when a pool starts iterating.

Modules, one per concern:

| module | file | models |
|---|---|---|
| `Wrappers` | `wrappers.dfy` | `Option` and `Result` |
| `Enums` | `enums.dfy` | `AgentAction`, `AgentOrientation` and `GridCell`, with their integer values |
| `Poses` | `poses.dfy` | `AgentPosition` and its moves |
| `Grids` | `grids.dfy` | the grid as rows of cells, point updates and cell counts |
| `Rotation` | `rotation.dfy` | `np.rot90` by a number of quarter turns |
| `Fov` | `fov.dfy` | `_pad_grid`, `_extract_fov` and `_get_observation` |
| `Env` | `env.dfy` | reset, the move loop, respawn and `step` |
| `EnvProperties` | `env_props.dfy` | what the move loop and `step` guarantee as written |
| `EnvCorrected` | `env_corrected.dfy` | the move loop as evidently intended |
| `Trajectories` | `trajectory.dfy` | `Trajectory` and its returns |
| `Pools` | `pool.dfy` | `TrajectoryPool` and its mini-batch iterator |

## Model

| member | source | states |
|---|---|---|
| Enums.ActionOf | src/gym_cpr_grid/gym_cpr_grid/cpr_grid.py:13-57 | An integer names an action exactly when it is one of the eight values 0..7; the action found maps back to that integer. |
| Enums.ActionValueRoundTrip | src/gym_cpr_grid/gym_cpr_grid/cpr_grid.py:18-25 | Converting an action to its value and back gives the same action. |
| Enums.OrientationOf | src/gym_cpr_grid/gym_cpr_grid/cpr_grid.py:87-96 | An integer names an orientation exactly when it is 0..3; the orientation found maps back to it. |
| Enums.OrientationValueRoundTrip | src/gym_cpr_grid/gym_cpr_grid/cpr_grid.py:93-96 | Converting an orientation to its value and back gives the same orientation. |
| Enums.TurnLeft | src/gym_cpr_grid/gym_cpr_grid/cpr_grid.py:98-102 | Turning left subtracts one quarter turn modulo 4. |
| Enums.TurnRight | src/gym_cpr_grid/gym_cpr_grid/cpr_grid.py:104-108 | Turning right adds one quarter turn modulo 4. |
| Enums.TurnsAreInverse | src/gym_cpr_grid/gym_cpr_grid/cpr_grid.py:98-108 | A left turn and a right turn undo each other, in either order. |
| Enums.FourTurnsAreIdentity | src/gym_cpr_grid/gym_cpr_grid/cpr_grid.py:98-108 | Four turns the same way restore the orientation; one turn always changes it; two left turns equal two right turns. |
| Enums.CellOf | src/gym_cpr_grid/gym_cpr_grid/cpr_grid.py:239-247 | An integer names a cell kind exactly when it is 0..2; the kind found maps back to it. |
| Enums.CellValueRoundTrip | src/gym_cpr_grid/gym_cpr_grid/cpr_grid.py:245-247 | Converting a cell kind to its value and back gives the same kind. |
| Poses.MoveForward | src/gym_cpr_grid/gym_cpr_grid/cpr_grid.py:140-152 | A forward step moves one cell along the facing direction and keeps the orientation. |
| Poses.MoveBackward | src/gym_cpr_grid/gym_cpr_grid/cpr_grid.py:154-166 | A backward step moves one cell against the facing direction and keeps the orientation. |
| Poses.MoveLeft | src/gym_cpr_grid/gym_cpr_grid/cpr_grid.py:168-179 | A left step moves one cell to the agent's left and keeps the orientation. |
| Poses.MoveRight | src/gym_cpr_grid/gym_cpr_grid/cpr_grid.py:181-192 | A right step moves one cell to the agent's right and keeps the orientation. |
| Poses.RotateLeftPose | src/gym_cpr_grid/gym_cpr_grid/cpr_grid.py:194-198 | Rotating left keeps the cell and turns the orientation left. |
| Poses.RotateRightPose | src/gym_cpr_grid/gym_cpr_grid/cpr_grid.py:200-204 | Rotating right keeps the cell and turns the orientation right. |
| Poses.ForwardBackwardInverse | src/gym_cpr_grid/gym_cpr_grid/cpr_grid.py:140-166 | A forward step and a backward step undo each other. |
| Poses.LeftRightInverse | src/gym_cpr_grid/gym_cpr_grid/cpr_grid.py:168-192 | A left step and a right step undo each other. |
| Poses.StepsMoveOneCell | src/gym_cpr_grid/gym_cpr_grid/cpr_grid.py:140-192 | Each of the four steps moves exactly one cell (Manhattan distance 1) and keeps the orientation. |
| Poses.StrafeIsTurnedForward | src/gym_cpr_grid/gym_cpr_grid/cpr_grid.py:168-204 | A sideways step reaches the cell a forward step reaches after turning that way, without the turn. |
| Poses.NewPositionShape | src/gym_cpr_grid/gym_cpr_grid/cpr_grid.py:206-225 | Rotations only turn; STAND_STILL and TAG, and only they, give back the same pose; the four steps move one cell. |
| Grids.Put | src/gym_cpr_grid/gym_cpr_grid/cpr_grid.py:436-445 | A single-cell write sets that cell and leaves every other cell unchanged. |
| Grids.CountPut | src/gym_cpr_grid/gym_cpr_grid/cpr_grid.py:487-492 | After a single-cell write, the count of a cell kind changes by at most the old and the new content of that cell. |
| Grids.CountZero | src/gym_cpr_grid/gym_cpr_grid/cpr_grid.py:487-492 | A kind has count zero exactly when no coordinate of the grid holds it. |
| Grids.CountGrows | src/gym_cpr_grid/gym_cpr_grid/cpr_grid.py:518-528 | A cell-wise change that only ever writes a kind never lowers that kind's count. |
| Rotation.CoordsInverse | src/gym_cpr_grid/gym_cpr_grid/cpr_grid.py:585-595 | Rotated coordinates and world coordinates are inverse maps. |
| Rotation.Rot90 | src/gym_cpr_grid/gym_cpr_grid/cpr_grid.py:585 | Rotating by k quarter turns swaps the grid's width and height exactly when k is odd. |
| Rotation.Rot90Keeps | src/gym_cpr_grid/gym_cpr_grid/cpr_grid.py:585-595 | The world cell (x, y) lands at its rotated coordinates in the rotated grid. |
| Rotation.Rot90At | src/gym_cpr_grid/gym_cpr_grid/cpr_grid.py:585-595 | Each cell of the rotated grid holds the world cell at its world coordinates. |
| Rotation.LocateInRotated | src/gym_cpr_grid/gym_cpr_grid/cpr_grid.py:588-595 | Rotating a grid of coordinates finds (x, y) exactly at the rotated coordinates of (x, y); this is how the source finds the agent after the turn. |
| Fov.QuarterTurns | src/gym_cpr_grid/gym_cpr_grid/cpr_grid.py:575-584 | Every orientation gets a rotation count in 0..3. |
| Fov.PadWidthsCover | src/gym_cpr_grid/gym_cpr_grid/cpr_grid.py:543-562 | The padding added before and after a coordinate leaves at least `span` cells on each side of it. |
| Fov.PadAt | src/gym_cpr_grid/gym_cpr_grid/cpr_grid.py:543-562 | Each cell of the padded grid is the original cell shifted by the leading padding, or the fill value outside the original. |
| Fov.PadGrid | src/gym_cpr_grid/gym_cpr_grid/cpr_grid.py:543-562 | `_pad_grid` pads each axis by the widths that axis's coordinate, span and dimension call for, and the result has the padded shape. |
| Fov.Slice | src/gym_cpr_grid/gym_cpr_grid/cpr_grid.py:607-614 | A clipped slice holds exactly the elements from its start, as many as fit. |
| Fov.ViewCoordsFollowSteps | src/gym_cpr_grid/gym_cpr_grid/cpr_grid.py:140-192 | Row i, offset d of an agent's view is the cell reached by i forward steps and d sideways steps. |
| Fov.ViewCellRotated | src/gym_cpr_grid/gym_cpr_grid/cpr_grid.py:585-595 | What the agent sees at view cell (i, d) is the world cell under the rotated coordinates at (i, d) from the agent. |
| Fov.WindowOf | src/gym_cpr_grid/gym_cpr_grid/cpr_grid.py:575-610 | The crop window: rotation count, rotated shape, rotated agent coordinates, padding widths and slice starts, each as the source computes it. |
| Fov.PaddedRotatedAt | src/gym_cpr_grid/gym_cpr_grid/cpr_grid.py:585-604 | A cell of the padded, rotated grid is the world cell under it, or EMPTY outside the world. |
| Fov.CropAt | src/gym_cpr_grid/gym_cpr_grid/cpr_grid.py:607-614 | When both slices have full length, crop cell (i, j) is padded cell (start + i, start + j). |
| Fov.CropIsView | src/gym_cpr_grid/gym_cpr_grid/cpr_grid.py:585-618 | A crop whose shape check passes is exactly the agent's view: cell (i, j) is what lies i cells ahead and j - side cells to the side. |
| Fov.ExtractFovWith | src/gym_cpr_grid/gym_cpr_grid/cpr_grid.py:564-620 | Extraction with given padding dimensions succeeds exactly when the window passes the shape check; on success the view has shape front x (2 side + 1); otherwise it fails with the shape error. |
| Fov.ExtractFovWithView | src/gym_cpr_grid/gym_cpr_grid/cpr_grid.py:564-620 | A successful extraction returns the agent's view, cell by cell. |
| Fov.ExtractFov | src/gym_cpr_grid/gym_cpr_grid/cpr_grid.py:564-620 | `_extract_fov` as written (padding taken against the unrotated width and height): a success has the view's shape, and a failure is the shape error. |
| Fov.ExtractFovView | src/gym_cpr_grid/gym_cpr_grid/cpr_grid.py:564-620 | Whenever `_extract_fov` succeeds, its result is the agent's view. |
| Fov.ExtractFovSucceeds | src/gym_cpr_grid/gym_cpr_grid/cpr_grid.py:598-618 | Facing up or down, or on a square grid, extraction never fails. |
| Fov.ExtractFovFailsOnTallGrid | src/gym_cpr_grid/gym_cpr_grid/cpr_grid.py:598-618 | On a 1 x 4 grid, an agent at (0, 0) facing left with front 2 and side 0 makes `_extract_fov` fail its shape check. |
| Fov.ShapeHoldsWithTrueAxes | src/gym_cpr_grid/gym_cpr_grid/cpr_grid.py:598-618 | Padded against any dimensions no larger than the rotated grid's own, the shape check always passes. |
| Fov.ExtractFovCorrected | src/gym_cpr_grid/gym_cpr_grid/cpr_grid.py:564-620 | Extraction padded against the rotated grid's dimensions always succeeds with shape front x (2 side + 1). |
| Fov.ExtractFovCorrectedView | src/gym_cpr_grid/gym_cpr_grid/cpr_grid.py:564-620 | The corrected extraction always returns the agent's view, cell by cell. |
| Fov.Colour | src/gym_cpr_grid/gym_cpr_grid/cpr_grid.py:494-512 | Colouring keeps the shape and maps each cell to its kind's colour. |
| Fov.Observation | src/gym_cpr_grid/gym_cpr_grid/cpr_grid.py:494-516 | An observation exists exactly when extraction succeeds and front > 0; it has the view's shape, and the agent's own cell is blue. |
| Fov.ObservationView | src/gym_cpr_grid/gym_cpr_grid/cpr_grid.py:494-516 | Every observation cell except the agent's own is the colour of the view cell under it. |
| Fov.ViewCellOwn | src/gym_cpr_grid/gym_cpr_grid/cpr_grid.py:514 | View cell (0, 0) is the agent's own cell, red before it is recoloured blue. |
| Env.PlaceAgents | src/gym_cpr_grid/gym_cpr_grid/cpr_grid.py:352-362 | A cell is AGENT when some agent stands on it; otherwise it keeps its content. |
| Env.EmptyGrid | src/gym_cpr_grid/gym_cpr_grid/cpr_grid.py:356-358 | The starting grid has the configured shape and every cell EMPTY. |
| Env.InitialGrid | src/gym_cpr_grid/gym_cpr_grid/cpr_grid.py:352-374 | AGENT exactly where an agent stands; RESOURCE exactly where the mask is set and no agent stands; EMPTY otherwise. |
| Env.Reset | src/gym_cpr_grid/gym_cpr_grid/cpr_grid.py:333-340 | Reset zeroes the step counter, keeps the given poses, installs the initial grid built from those poses and the resource mask, and yields a state that satisfies the invariant. |
| Env.MoveFeasibleIff | src/gym_cpr_grid/gym_cpr_grid/cpr_grid.py:447-476 | A move is feasible exactly when the pose lies inside the grid and its cell is not AGENT. |
| Env.DepletedIff | src/gym_cpr_grid/gym_cpr_grid/cpr_grid.py:487-492 | The grid is depleted exactly when no coordinate holds a resource. |
| Env.ComputeNewAgentPosition | src/gym_cpr_grid/gym_cpr_grid/cpr_grid.py:417-434 | The candidate pose is taken exactly when it is feasible, and the current pose is kept otherwise; a changed pose lies inside the grid off every AGENT cell. |
| Env.MoveAgent | src/gym_cpr_grid/gym_cpr_grid/cpr_grid.py:436-445 | The target cell becomes AGENT, the recorded cell becomes EMPTY if it differs, and nothing else changes. |
| Env.MoveOne | src/gym_cpr_grid/gym_cpr_grid/cpr_grid.py:391-402 | One agent's turn keeps the loop invariant: every agent on an AGENT cell, every reward +1 or -1. |
| Env.StartTick | src/gym_cpr_grid/gym_cpr_grid/cpr_grid.py:386-388 | The loop starts valid, with every reward at -1. |
| Env.Ticks | src/gym_cpr_grid/gym_cpr_grid/cpr_grid.py:391-402 | The loop states after the first n agents' turns form a trace: each entry is the previous one after the next agent's turn. |
| Env.TraceExtend | src/gym_cpr_grid/gym_cpr_grid/cpr_grid.py:391-402 | A trace followed by the next agent's turn is a trace one agent longer. |
| Env.MoveAgents | src/gym_cpr_grid/gym_cpr_grid/cpr_grid.py:391-402 | The whole move loop ends in a valid loop state. |
| Env.RespawnProbability | src/gym_cpr_grid/gym_cpr_grid/cpr_grid.py:530-541 | The regrowth chance is 0 for no nearby resources, 0.01 for 1-2, 0.05 for 3-4 and 0.1 above 4. |
| Env.RespawnProbabilityMonotone | src/gym_cpr_grid/gym_cpr_grid/cpr_grid.py:530-541 | More resources nearby never lower the regrowth chance. |
| Env.RespawnResources | src/gym_cpr_grid/gym_cpr_grid/cpr_grid.py:518-528 | Respawn only turns EMPTY cells into RESOURCE, and an EMPTY cell turns exactly when its draw succeeds. |
| Env.RespawnKeepsAgents | src/gym_cpr_grid/gym_cpr_grid/cpr_grid.py:518-528 | Respawn leaves every agent on an AGENT cell. |
| Env.ObservationLoop | src/gym_cpr_grid/gym_cpr_grid/cpr_grid.py:409-411 | The observation loop succeeds exactly when every remaining agent's observation can be extracted. |
| Env.ObservationLoopLast | src/gym_cpr_grid/gym_cpr_grid/cpr_grid.py:409-411 | A successful observation loop leaves the last agent's observation in the variable. |
| Env.Step | src/gym_cpr_grid/gym_cpr_grid/cpr_grid.py:376-415 | A wrong number of actions raises, and does so with the state untouched; the state left behind keeps the invariant, whether the step completed or raised while observing; the step counter advances exactly when the action count is right. |
| EnvProperties.CollectedUpdate | src/gym_cpr_grid/gym_cpr_grid/cpr_grid.py:397-399 | Overwriting one reward changes the number of collecting agents by the old and the new reward only. |
| EnvProperties.MoveOneFrame | src/gym_cpr_grid/gym_cpr_grid/cpr_grid.py:391-399 | A turn stores the resolved pose and pays +1 exactly when the resolved cell held a resource. |
| EnvProperties.MoveOneKeeps | src/gym_cpr_grid/gym_cpr_grid/cpr_grid.py:391-402 | A turn leaves every other agent's pose and reward alone. |
| EnvProperties.MoveOneGrid | src/gym_cpr_grid/gym_cpr_grid/cpr_grid.py:391-402 | As written, a turn marks the resolved cell AGENT and changes no other cell, so the cell left behind stays AGENT. |
| EnvProperties.MoveOneCell | src/gym_cpr_grid/gym_cpr_grid/cpr_grid.py:391-402 | After a turn, each cell is AGENT if it is the resolved cell and unchanged otherwise. |
| EnvProperties.MoveOneCount | src/gym_cpr_grid/gym_cpr_grid/cpr_grid.py:391-402 | A turn removes a resource from the grid exactly when it pays the reward for it. |
| EnvProperties.TraceStep | src/gym_cpr_grid/gym_cpr_grid/cpr_grid.py:391-402 | Each trace entry is the one before it after the next agent's turn. |
| EnvProperties.TraceFrame | src/gym_cpr_grid/gym_cpr_grid/cpr_grid.py:386-402 | Before its turn an agent holds its starting pose and the -1 reward; after its turn it holds what that turn gave it. |
| EnvProperties.AgentTurn | src/gym_cpr_grid/gym_cpr_grid/cpr_grid.py:391-402 | Each agent resolves its action from its starting pose against the grid the earlier agents left, and ends with +1 exactly when that cell held a resource, -1 otherwise. |
| EnvProperties.TraceCollect | src/gym_cpr_grid/gym_cpr_grid/cpr_grid.py:391-402 | Throughout the loop, resources left plus agents paid equals the resources the step started with. |
| EnvProperties.TraceOnlyMark | src/gym_cpr_grid/gym_cpr_grid/cpr_grid.py:391-402 | Throughout the loop, every cell keeps its starting content or has become AGENT. |
| EnvProperties.RotationsAlwaysRejected | src/gym_cpr_grid/gym_cpr_grid/cpr_grid.py:417-454 | Rotations, STAND_STILL and TAG always keep the current pose, and no action ever changes an orientation, because an agent's own cell counts as occupied. |
| EnvProperties.TurnKeepsOrientation | src/gym_cpr_grid/gym_cpr_grid/cpr_grid.py:391-402 | A turn keeps the agent's orientation, and its whole pose for an in-place action. |
| EnvProperties.TraceKeepOrientation | src/gym_cpr_grid/gym_cpr_grid/cpr_grid.py:391-402 | Throughout the loop no orientation changes, and agents with in-place actions stay put. |
| EnvProperties.MoveAgentsCollect | src/gym_cpr_grid/gym_cpr_grid/cpr_grid.py:386-402 | After the loop, resources left plus agents paid equals the resources before it. |
| EnvProperties.StartCellsStayAgent | src/gym_cpr_grid/gym_cpr_grid/cpr_grid.py:391-402 | After the loop, every cell kept its content or became AGENT, and every agent's starting cell is still AGENT. |
| EnvProperties.MoveAgentsKeepOrientation | src/gym_cpr_grid/gym_cpr_grid/cpr_grid.py:391-402 | After the loop every orientation is unchanged, and in-place agents are where they started. |
| EnvProperties.StepPoses | src/gym_cpr_grid/gym_cpr_grid/cpr_grid.py:391-411 | A step ends with the loop's poses, and raises exactly when some agent's view cannot be extracted. |
| EnvProperties.StepDones | src/gym_cpr_grid/gym_cpr_grid/cpr_grid.py:386-407 | All agents share one done flag, set exactly when the grid is depleted after the moves or the counter reaches the step limit; the rewards are the loop's. |
| EnvProperties.StepResources | src/gym_cpr_grid/gym_cpr_grid/cpr_grid.py:391-413 | Resources after a step, plus the agents paid, are at least the resources before it. |
| EnvProperties.StepObservationIsLoop | src/gym_cpr_grid/gym_cpr_grid/cpr_grid.py:391-411 | A completed step returns what the observation loop leaves, run on the grid and poses the move loop produced. |
| EnvProperties.StepObservationIsLastAgents | src/gym_cpr_grid/gym_cpr_grid/cpr_grid.py:409-415 | A step returns the last agent's observation only, or the empty list when there are no agents. |
| EnvProperties.LeftCellKeptExample | src/gym_cpr_grid/gym_cpr_grid/cpr_grid.py:391-445 | In a 3 x 3 world, an agent stepping onto a resource collects it, and the cell it left still reads AGENT. |
| EnvProperties.EdgeMoveRefusedExample | src/gym_cpr_grid/gym_cpr_grid/cpr_grid.py:447-476 | A step off the grid's edge is refused: the pose stays and the reward is -1. |
| EnvCorrected.ComputeNewAgentPosition | src/gym_cpr_grid/gym_cpr_grid/cpr_grid.py:417-454 | With the agent's own cell not counted as blocking, the candidate is taken exactly when it is feasible and the current pose is kept otherwise; a moved pose never lands on another agent's cell. |
| EnvCorrected.RotationsApplied | src/gym_cpr_grid/gym_cpr_grid/cpr_grid.py:194-225 | With that correction, rotations really turn the agent, while STAND_STILL and TAG keep the pose. |
| EnvCorrected.MoveKeepsConsistent | src/gym_cpr_grid/gym_cpr_grid/cpr_grid.py:436-445 | Blanking the cell an agent leaves keeps grid and poses in exact agreement: a cell is AGENT if and only if an agent stands on it. |
| EnvCorrected.MoveOne | src/gym_cpr_grid/gym_cpr_grid/cpr_grid.py:391-402 | The corrected turn keeps that agreement and blanks the cell left behind. |
| EnvCorrected.MoveFrom | src/gym_cpr_grid/gym_cpr_grid/cpr_grid.py:391-402 | The corrected loop keeps that agreement for every agent. |
| EnvCorrected.LeftCellClearedExample | src/gym_cpr_grid/gym_cpr_grid/cpr_grid.py:391-445 | In the same 3 x 3 world, the corrected turn leaves the departed cell EMPTY. |
| Trajectories.Empty | src/memory.py:14-22 | A new trajectory is well formed and has length 0. |
| Trajectories.LegalOrDefault | src/memory.py:35 | A non-empty legal-action list is kept; a missing or empty one becomes all-true, one entry per action probability. |
| Trajectories.AddTimestep | src/memory.py:24-36 | Adding a timestep grows the length by one, stores the new tuple last and keeps every earlier one. |
| Trajectories.GetItem | src/memory.py:125-136 | Indexing succeeds exactly for -len <= i < len; a negative index counts from the end. |
| Trajectories.RecordIndex | src/memory.py:125-136 | A trajectory built from a list of tuples returns each tuple at its index and at that index minus the length. |
| Trajectories.Reverse | src/memory.py:114-117 | Reversal keeps the length and mirrors the positions. |
| Trajectories.DiscountPowers | src/memory.py:114 | The discount vector has entry d^i at position i. |
| Trajectories.Horizon | src/memory.py:111-113 | The horizon defaults to the length and is otherwise clipped into 0..length. |
| Trajectories.GetReturns | src/memory.py:104-123 | Returns fail exactly for a discount outside (0, 1], for a horizon the rewards cannot broadcast against, or for the total when the clipped horizon is 0; returns-to-go have one entry per timestep, or none for horizon 0. |
| Trajectories.ReversedPrefixSum | src/memory.py:115-117 | A prefix sum of the reversed vector is a suffix sum of the original. |
| Trajectories.DiscountedIsSuffix | src/memory.py:114-117 | Discounted returns from t are the suffix sum from t of rewards weighted by d^i. |
| Trajectories.ReturnsPerTimestepIsSuffixSums | src/memory.py:115-117 | The reverse, cumulative-sum, reverse pipeline yields the suffix sums of the weighted rewards. |
| Trajectories.ReturnsPerTimestepAt | src/memory.py:114-117 | Entry t of the returns vector is the sum over i >= t of r_i d^i. |
| Trajectories.GetReturnsMeaning | src/memory.py:104-123 | Returns-to-go are the per-timestep discounted sums, and the total return is the first of them. |
| Trajectories.ReturnsRecurrence | src/memory.py:114-117 | Returns satisfy G_t = r_t d^t + G_(t+1), ending at the last weighted reward. |
| Trajectories.UndiscountedFrom | src/memory.py:104-117 | With discount 1, the return from t is the plain sum of the rewards from t. |
| Trajectories.UndiscountedTotal | src/memory.py:104-123 | With discount 1, the total return is the sum of all rewards. |
| Trajectories.HorizonOneIgnoresDiscount | src/memory.py:111-119 | With horizon 1 on a longer trajectory, the total is the undiscounted sum of all rewards, whatever the discount. |
| Trajectories.ShortHorizonRaises | src/memory.py:111-117 | Every horizon strictly between 1 and the length raises a shape error. |
| Trajectories.GetReturnsTruncated | src/memory.py:104-123 | The intended finite-horizon returns: they fail only for a bad discount or for the total at horizon 0, and returns-to-go have one entry per step of the horizon. |
| Trajectories.FiniteHorizonUndiscounted | src/memory.py:106-109 | With discount 1 and horizon m > 0, the intended total is the sum of the first m rewards. |
| Trajectories.TruncatedFullHorizon | src/memory.py:104-123 | Without a horizon, the intended version agrees with `get_returns`. |
| Trajectories.ShortHorizonExample | src/memory.py:104-123 | For rewards [1, 2, 3], horizon 2 and discount 1, `get_returns` raises, while the intended version gives 3. |
| Trajectories.ReturnsToGoRelative | src/memory.py:104-117 | The intended returns-to-go: entry t is the sum over i >= t of r_i d^(i-t). |
| Trajectories.RelativeScaled | src/memory.py:114-117 | The source's entry t equals d^t times the intended entry t. |
| Trajectories.ReturnsToGoRelativeRecurrence | src/memory.py:104-117 | The intended returns satisfy the Bellman recurrence G_t = r_t + d G_(t+1). |
| Trajectories.ReturnsToGoRelativeAtStart | src/memory.py:114-119 | At t = 0 the source's and the intended returns agree, so the total return is unaffected. |
| Trajectories.AbsoluteExponentExample | src/memory.py:114-117 | For rewards [0, 1] and discount 0.5, the source's return at t = 1 is 0.5 where the intended one is 1. |
| Pools.Init | src/memory.py:156-162 | A new pool holds n empty trajectories (none for negative n) and the given discount and mini-batch size. |
| Pools.InitEmpty | src/memory.py:156-162 | A new pool has length 0. |
| Pools.Add | src/memory.py:164-171 | Adding appends the trajectory, keeps the others and the settings, and grows the length by the trajectory's length. |
| Pools.Extend | src/memory.py:173-181 | Extending appends the other pool's trajectories in order and adds the two lengths. |
| Pools.ExtendKeepsValid | src/memory.py:173-181 | Extending two pools of well-formed trajectories gives a pool of well-formed trajectories. |
| Pools.TrajectoryRowsAt | src/memory.py:193-225 | Row i of a trajectory is its tuple i together with its discounted return from i. |
| Pools.Rows | src/memory.py:193-225 | The concatenated rows number the pool's length. |
| Pools.Iter | src/memory.py:255-266 | Starting iteration fails exactly without a mini-batch size, with no trajectory or with a bad discount; otherwise row i of the full batch is row perm[i] and the counter is 0. |
| Pools.FloorDiv | src/memory.py:273 | Python's `//` gives the quotient rounded towards minus infinity. |
| Pools.Slice | src/memory.py:276-279 | Python slicing within bounds is the plain subsequence. |
| Pools.MiniBatch | src/memory.py:276-279 | Mini-batch j holds rows j m .. j m + m - 1 of the full batch. |
| Pools.Next | src/memory.py:268-279 | `next` raises exactly for size 0, yields exactly while the counter is below len // m, and then returns the counter's mini-batch and advances the counter. |
| Pools.DrainFrom | src/memory.py:268-279 | From mini-batch c on, iteration yields exactly mini-batches c .. len / m - 1, in order. |
| Pools.DrainAll | src/memory.py:268-279 | Iterating from the first mini-batch yields len / m mini-batches in order for m > 0, raises for m = 0 and yields nothing for m < 0. |
| Pools.AllBatches | src/memory.py:255-285 | A full pass yields len / m mini-batches that tile the shuffled rows from the front and drop fewer than m rows; size 0 raises and a negative size yields nothing. |

## Left out

- Rendering, `plot_observation`, `close`, the observation space and the action space's random sampling: presentation and gym plumbing with no bearing on the dynamics.
- Randomness: `_random_position`, the initial resource draws, the per-cell Bernoulli draws of `_respawn_resources` and `torch.randperm` are arguments of the model, not generated.
- Env.RespawnResources: takes the regrowth outcome of each EMPTY cell as given and does not model `_extract_ball` (cpr_grid.py:622-651). As written, `_extract_ball` slices the tuple that `_pad_grid` returns as though it were the padded array. That would raise as soon as any cell is EMPTY. Even with that repaired, it slices without the padding offset and counts every cell of the disk rather than the resources in it. `RespawnProbability` is modelled on its own.
- Colours are named (`Color`) rather than matplotlib RGB triples, and an observation is a grid of names rather than a float array.
- The tagging and beam parameters of the constructor: the source stores them but never reads them.
- The torch/numpy conversions, `device` handling, `get_states`-style accessors and `tensorify`'s dtype casts: a row of the full batch is modelled as the stored tuple plus its return-to-go.
- `add_to_trajectory`, `num_trajectories`, `get_trajectory` and `get_trajectory_returns`: thin delegations to the modelled trajectory operations.
- Trajectories.GetReturns: rewards are exact reals, so float32 rounding is not modelled.
- The `isinstance` assertions on the arguments of `add` and `extend` are enforced by Dafny's types instead.
- Env.Step: the check that `actions` is a Python list is dropped; only its length is checked. Actions are typed as the `Action` enumeration, so the per-action `isinstance` assertion in `get_new_position` (cpr_grid.py:222-224) is not modelled. Neither is the half-applied step it leaves behind when a raw value at position `i > 0` raises after agents `0 .. i-1` have already been moved (cpr_grid.py:391-401). The `info` dictionary is always empty and is not returned.
- Pools.Add / Pools.Extend: trajectories are modelled as values, so sharing between pools is not modelled. In the source a pool holds references: a later `add_timestep` on an added trajectory, or `add_to_trajectory` on the pool it came from, also changes this pool's length and rows (memory.py:164-191). The modelled pool does not change.

## Findings

| source | as written | input that shows it | evidently intended | confidence | as-written member | corrected member |
|---|---|---|---|---|---|---|
| src/gym_cpr_grid/gym_cpr_grid/cpr_grid.py:391-445 | `step` stores the new pose before calling `_move_agent`, which blanks the cell of the pose now recorded, i.e. the new one; the cell the agent left keeps AGENT | 3 x 3 grid, one agent at (1, 1) facing up, resource at (1, 0), action STEP_FORWARD: afterwards (1, 0) and (1, 1) both read AGENT | the left cell becomes EMPTY and AGENT cells match agent positions | high, not executed | EnvProperties.LeftCellKeptExample | EnvCorrected.LeftCellClearedExample |
| src/gym_cpr_grid/gym_cpr_grid/cpr_grid.py:417-454 | `_is_move_feasible` rejects every AGENT cell, including the mover's own, so ROTATE_LEFT, ROTATE_RIGHT, STAND_STILL and TAG are always rejected; no orientation ever changes | any agent on its own AGENT cell choosing ROTATE_LEFT keeps its orientation | rotations turn the agent | high, not executed | EnvProperties.RotationsAlwaysRejected | EnvCorrected.RotationsApplied |
| src/gym_cpr_grid/gym_cpr_grid/cpr_grid.py:598-618 | the rotated grid is padded against the unrotated `width` and `height`, so for a LEFT or RIGHT facing agent on a non-square grid the crop can be too short and the shape assertion fails | grid 1 wide and 4 tall, agent at (0, 0) facing LEFT, front 2, side 0 | padding against the rotated grid's own dimensions, which always gives a front x (2 side + 1) view | high, not executed | Fov.ExtractFovFailsOnTallGrid | Fov.ExtractFovCorrected |
| src/memory.py:114-117 | returns-to-go weight reward i by d^i at every t, so G_t = sum over i >= t of r_i d^i | rewards [0, 1], discount 0.5: G_1 = 0.5 | G_t = sum over i >= t of r_i d^(i-t), which satisfies G_t = r_t + d G_(t+1) | medium, not executed | Trajectories.AbsoluteExponentExample | Trajectories.ReturnsToGoRelative |
| src/memory.py:111-117 | the rewards are not cut to the clipped horizon `m`; the `n` rewards are multiplied with `m` discount powers, and numpy broadcasting raises unless `m` is `n` or 1, where 1 drops the discount and sums every reward | rewards [1, 2, 3], `max_timestep=2`, discount 1: shape error; `max_timestep=1` on the same rewards gives 6, not 1 | the finite-horizon return the docstring describes: the discounted sum of the first `m` rewards | high, not executed | Trajectories.ShortHorizonRaises | Trajectories.GetReturnsTruncated |
