/**
 * The training loop (`run`): for each episode, put the agent back on cell 1, let it step
 * until it enters the win cell or a loss cell, and keep the last episode's trajectory.
 * The program's loop has no step limit; here each episode gets a budget of `maxSteps`
 * steps, and a run whose episode exhausts it stops early.
 */
module Simulation {
  import opened BoardModel
  import opened QAgent

  /** The end-of-episode test: the cell entered is the win cell or a loss cell. */
  predicate IsTerminal(b: Board, cell: int) {
    cell == b.winCell || cell in b.lossCells
  }

  /**
   * A finished episode: it starts on cell 1, ends on a terminal cell and passes through
   * no terminal cell in between. The start cell itself is never tested.
   */
  ghost predicate FinishedEpisode(b: Board, trajectory: seq<int>) {
    && |trajectory| >= 2
    && trajectory[0] == 1
    && IsTerminal(b, trajectory[|trajectory| - 1])
    && forall i :: 0 < i < |trajectory| - 1 ==> !IsTerminal(b, trajectory[i])
  }

  /**
   * `run(tablero, episodios)`: `episodesRun` episodes finished, `history` holds their
   * trajectories in order, and the trajectory kept is the one of episode `episodes - 1`,
   * or [] when that episode did not finish or there was none. All `episodes` episodes run
   * unless one exhausts its step budget; that episode's `maxSteps` steps, none of them
   * onto a terminal cell, are returned in `stuck`.
   */
  method Run(board: Board, episodes: nat, maxSteps: nat)
    returns (lastTrajectory: seq<int>, episodesRun: nat,
             ghost history: seq<seq<int>>, ghost stuck: seq<int>)
    ensures episodesRun <= episodes && |history| == episodesRun
    ensures episodesRun < episodes ==>
      && |stuck| == maxSteps + 1 && stuck[0] == 1
      && forall i :: 0 < i < |stuck| ==> !IsTerminal(board, stuck[i])
    ensures forall i :: 0 <= i < episodesRun ==>
      FinishedEpisode(board, history[i]) && |history[i]| <= maxSteps + 1
    ensures episodesRun == episodes && episodes > 0 ==> lastTrajectory == history[episodes - 1]
    ensures episodesRun < episodes || episodes == 0 ==> lastTrajectory == []
  {
    var agent := new QLearningAgent(board, epsilon := 0.1);
    lastTrajectory := [];
    history := [];
    stuck := [];
    for episode := 0 to episodes
      invariant |history| == episode
      invariant forall i :: 0 <= i < episode ==>
        FinishedEpisode(board, history[i]) && |history[i]| <= maxSteps + 1
      invariant lastTrajectory == if 0 < episode == episodes then history[episode - 1] else []
    {
      agent.pos := 1;
      var trajectory := [agent.pos];
      var steps := 0;
      while true
        invariant 0 <= steps <= maxSteps
        invariant |trajectory| == steps + 1 && trajectory[0] == 1
        invariant forall i :: 0 < i < |trajectory| ==> !IsTerminal(board, trajectory[i])
        invariant lastTrajectory == []
        decreases maxSteps - steps
      {
        if steps == maxSteps {
          // the program would keep stepping; the model gives up on the run
          episodesRun, stuck := episode, trajectory;
          return;
        }
        var state, action, reward, next := agent.Step();
        steps := steps + 1;
        trajectory := trajectory + [next];
        if IsTerminal(agent.board, next) {
          if episode == episodes - 1 {
            lastTrajectory := trajectory;
          }
          break;
        }
      }
      history := history + [trajectory];
    }
    episodesRun := episodes;
  }
}
