/**
 * The tabular Q-learning agent (class `AgenteQLearning`). The Q-table maps
 * (state, action) pairs to values; a pair that is not in the table reads as 0.0.
 * Q-values and rewards are `real`: floating-point rounding is not modelled.
 */
module QAgent {
  import opened BoardModel

  /** `Q.get((s, a), 0.0)`. */
  function QGet(q: map<(int, int), real>, s: int, a: int): real {
    if (s, a) in q then q[(s, a)] else 0.0
  }

  /** `max(Q.get((s, a), 0.0) for a in acts)`: the best value of any listed action. */
  function MaxQ(q: map<(int, int), real>, s: int, acts: seq<int>): (m: real)
    requires |acts| > 0
    ensures forall a :: a in acts ==> QGet(q, s, a) <= m
    ensures exists a :: a in acts && QGet(q, s, a) == m
  {
    if |acts| == 1 then QGet(q, s, acts[0])
    else
      var rest := MaxQ(q, s, acts[1..]);
      assert forall a :: a in acts ==> a == acts[0] || a in acts[1..];
      if QGet(q, s, acts[0]) >= rest then QGet(q, s, acts[0]) else rest
  }

  /** `mejores_acciones`: the listed actions whose value equals `best`, in list order. */
  function BestActions(q: map<(int, int), real>, s: int, acts: seq<int>, best: real): (r: seq<int>)
    ensures forall a :: a in r <==> a in acts && QGet(q, s, a) == best
  {
    if acts == [] then []
    else
      assert forall a :: a in acts ==> a == acts[0] || a in acts[1..];
      (if QGet(q, s, acts[0]) == best then [acts[0]] else []) + BestActions(q, s, acts[1..], best)
  }

  /** The temporal-difference target `reward + gamma * maxnext`. */
  function TdTarget(reward: real, gamma: real, nextMax: real): real {
    reward + gamma * nextMax
  }

  /**
   * The value written by one temporal-difference step, `current + alpha * (target - current)`:
   * the weighted average of the old value and the target, and for alpha in [0, 1] a value
   * between the two.
   */
  function TdValue(current: real, target: real, alpha: real): (v: real)
    ensures v == (1.0 - alpha) * current + alpha * target
    ensures alpha == 1.0 ==> v == target
    ensures alpha == 0.0 ==> v == current
    ensures 0.0 <= alpha <= 1.0 ==> (current <= v <= target) || (target <= v <= current)
  {
    var v := current + alpha * (target - current);
    StepAffine(current, target, alpha);
    StepEnds(current, target, alpha);
    StepBetween(current, target, alpha, v);
    v
  }

  /** The step form of the update is the weighted average of old value and target. */
  lemma StepAffine(current: real, target: real, alpha: real)
    ensures current + alpha * (target - current) == (1.0 - alpha) * current + alpha * target
  {
    assert alpha * (target - current) == alpha * target - alpha * current;
    assert (1.0 - alpha) * current == current - alpha * current;
  }

  /** A full step reaches the target; an empty step keeps the old value. */
  lemma StepEnds(current: real, target: real, alpha: real)
    ensures alpha == 1.0 ==> current + alpha * (target - current) == target
    ensures alpha == 0.0 ==> current + alpha * (target - current) == current
  {
    if alpha == 1.0 {
      assert alpha * (target - current) == target - current;
    } else if alpha == 0.0 {
      assert alpha * (target - current) == 0.0;
    }
  }

  /** A step with alpha in [0, 1] ends between the old value and the target. */
  lemma StepBetween(current: real, target: real, alpha: real, v: real)
    requires v == current + alpha * (target - current)
    ensures 0.0 <= alpha <= 1.0 ==> (current <= v <= target) || (target <= v <= current)
  {
    if 0.0 <= alpha <= 1.0 {
      var d := target - current;
      var step := alpha * d;
      ScaledBetween(alpha, d);
      assert v == current + step;
      if d >= 0.0 {
        assert current <= v <= target;
      } else {
        assert target <= v <= current;
      }
    }
  }

  /** A fraction in [0, 1] of a difference lies between 0 and that difference. */
  lemma ScaledBetween(alpha: real, d: real)
    requires 0.0 <= alpha <= 1.0
    ensures d >= 0.0 ==> 0.0 <= alpha * d <= d
    ensures d <= 0.0 ==> d <= alpha * d <= 0.0
  {
    assert (1.0 - alpha) * d == d - alpha * d;
    if d >= 0.0 {
      assert (1.0 - alpha) * d >= 0.0;
    } else {
      assert (1.0 - alpha) * d <= 0.0;
    }
  }

  /**
   * The table after `actualizar_Q(s, a, reward, next)`: only the key (s, a) is written;
   * the next state's best value is taken over all actions, terminal or not.
   */
  function TdUpdate(q: map<(int, int), real>, s: int, a: int, reward: real, next: int,
                    alpha: real, gamma: real, acts: seq<int>): (q': map<(int, int), real>)
    requires |acts| > 0
    ensures q'.Keys == q.Keys + {(s, a)}
    ensures q'[(s, a)] == TdValue(QGet(q, s, a), TdTarget(reward, gamma, MaxQ(q, next, acts)), alpha)
    ensures forall k :: k in q && k != (s, a) ==> q'[k] == q[k]
  {
    q[(s, a) := TdValue(QGet(q, s, a), TdTarget(reward, gamma, MaxQ(q, next, acts)), alpha)]
  }

  /** The states that appear as the first component of a key. */
  function StatesOf(q: map<(int, int), real>): set<int> {
    set k | k in q :: k.0
  }

  /** `sum(p * Q.get((s, a), 0) for a in acts)`. */
  function WeightedSum(q: map<(int, int), real>, s: int, acts: seq<int>, p: real): real {
    if acts == [] then 0.0 else p * QGet(q, s, acts[0]) + WeightedSum(q, s, acts[1..], p)
  }

  /** The plain sum of the listed actions' values. */
  function SumQ(q: map<(int, int), real>, s: int, acts: seq<int>): real {
    if acts == [] then 0.0 else QGet(q, s, acts[0]) + SumQ(q, s, acts[1..])
  }

  /** The weight can be taken out of the sum. */
  lemma {:induction false} WeightedSumFactor(q: map<(int, int), real>, s: int, acts: seq<int>, p: real)
    ensures WeightedSum(q, s, acts, p) == p * SumQ(q, s, acts)
  {
    if acts != [] {
      WeightedSumFactor(q, s, acts[1..], p);
    }
  }

  /** The sum of the values is at most the count times the best value. */
  lemma SumAtMostMax(q: map<(int, int), real>, s: int, acts: seq<int>, m: real)
    requires forall a :: a in acts ==> QGet(q, s, a) <= m
    ensures SumQ(q, s, acts) <= |acts| as real * m
  {
    SumAtMostRepeated(q, s, acts, m);
    RepeatedIsProduct(|acts|, m);
  }

  /** `m` added to itself `k` times. */
  function Repeated(k: nat, m: real): real {
    if k == 0 then 0.0 else Repeated(k - 1, m) + m
  }

  /** Each summand is at most `m`, so the sum is at most `m` repeated once per action. */
  lemma {:induction false} SumAtMostRepeated(q: map<(int, int), real>, s: int, acts: seq<int>, m: real)
    requires forall a :: a in acts ==> QGet(q, s, a) <= m
    ensures SumQ(q, s, acts) <= Repeated(|acts|, m)
  {
    if acts != [] {
      assert acts[0] in acts;
      assert forall a :: a in acts[1..] ==> a in acts;
      SumAtMostRepeated(q, s, acts[1..], m);
    }
  }

  /** Repeated addition is multiplication. */
  lemma {:induction false} RepeatedIsProduct(k: nat, m: real)
    ensures Repeated(k, m) == k as real * m
  {
    if k > 0 {
      RepeatedIsProduct(k - 1, m);
      var x := (k - 1) as real;
      assert k as real == x + 1.0;
      assert (x + 1.0) * m == x * m + m;
    }
  }

  /**
   * `Q_values()`: for every state that occurs in a key, the average of its actions'
   * values (missing entries count as 0), weighted `1 / len(acts)` each.
   */
  function StateValues(q: map<(int, int), real>, acts: seq<int>): (r: map<int, real>)
    requires |acts| > 0
    ensures r.Keys == StatesOf(q)
    ensures forall s :: s in r ==> r[s] == SumQ(q, s, acts) / |acts| as real
    ensures forall s :: s in r ==> r[s] <= MaxQ(q, s, acts)
  {
    var p := 1.0 / |acts| as real;
    var r := map s | s in StatesOf(q) :: WeightedSum(q, s, acts, p);
    forall s | s in r
      ensures r[s] == SumQ(q, s, acts) / |acts| as real
      ensures r[s] <= MaxQ(q, s, acts)
    {
      MeanIsAverage(q, s, acts, |acts| as real);
      MeanAtMostMax(q, s, acts);
    }
    r
  }

  /** With weight `1 / n`, n the number of actions, the weighted sum is the mean. */
  lemma MeanIsAverage(q: map<(int, int), real>, s: int, acts: seq<int>, n: real)
    requires n == |acts| as real && n > 0.0
    ensures WeightedSum(q, s, acts, 1.0 / n) == SumQ(q, s, acts) / n
  {
    WeightedSumFactor(q, s, acts, 1.0 / n);
    ScaleByInverse(SumQ(q, s, acts), n);
  }

  lemma ScaleByInverse(x: real, n: real)
    requires n > 0.0
    ensures 1.0 / n * x == x / n
  {
  }

  /** The mean of the actions' values is at most their maximum. */
  lemma MeanAtMostMax(q: map<(int, int), real>, s: int, acts: seq<int>)
    requires |acts| > 0
    ensures WeightedSum(q, s, acts, 1.0 / |acts| as real) <= MaxQ(q, s, acts)
  {
    var n := |acts| as real;
    var m, w, total := MaxQ(q, s, acts), WeightedSum(q, s, acts, 1.0 / n), SumQ(q, s, acts);
    SumAtMostMax(q, s, acts, m);
    WeightedSumFactor(q, s, acts, 1.0 / n);
    InverseBound(w, total, n, m);
  }

  lemma InverseBound(w: real, total: real, n: real, m: real)
    requires n > 0.0 && total <= n * m && w == 1.0 / n * total
    ensures w <= m
  {
    var p := 1.0 / n;
    assert p * n == 1.0;
    assert p * total <= p * (n * m);
    assert p * (n * m) == (p * n) * m;
  }

  /** The average is not the maximum: one action at 0.0 and one at 2.0 average to 1.0. */
  lemma StateValueIsMean()
    ensures var q := map[(7, -1) := 0.0, (7, 1) := 2.0];
      StateValues(q, [-1, 1])[7] == 1.0 && MaxQ(q, 7, [-1, 1]) == 2.0
  {
    var q := map[(7, -1) := 0.0, (7, 1) := 2.0];
    assert (7, 1) in q;
    assert StatesOf(q) == {7};
    assert SumQ(q, 7, [-1, 1]) == 2.0;
  }

  /** The worked temporal-difference step: alpha 0.5, gamma 0.9, reward -1 gives 0.4. */
  lemma TdUpdateExample()
    ensures var q := map[(3, 1) := 0.0, (4, -1) := 0.0, (4, 1) := 2.0];
      TdUpdate(q, 3, 1, -1.0, 4, 0.5, 0.9, [-1, 1])[(3, 1)] == 0.4
  {
    var q := map[(3, 1) := 0.0, (4, -1) := 0.0, (4, 1) := 2.0];
    assert QGet(q, 4, -1) == 0.0 && QGet(q, 4, 1) == 2.0;
    assert MaxQ(q, 4, [-1, 1]) == 2.0;
  }

  class QLearningAgent {
    const board: Board      // tablero
    var alpha: real         // learning rate
    var gamma: real         // discount factor
    var epsilon: real       // exploration rate
    var pos: int            // current cell
    /** Left/right, or up/down at the ends of a row. */
    const actions: seq<int> := [-1, 1]
    var q: map<(int, int), real>

    constructor (board: Board, alpha: real := 0.25, gamma: real := 0.9, epsilon: real := 0.25)
      ensures this.board == board && this.alpha == alpha && this.gamma == gamma && this.epsilon == epsilon
      ensures pos == 1 && actions == [-1, 1] && q == map[]
    {
      this.board := board;
      this.alpha := alpha;
      this.gamma := gamma;
      this.epsilon := epsilon;
      pos := 1;
      q := map[];
    }

    /**
     * `escoger_accion`, epsilon-greedy. The uniform draw in [0, 1) and the random choices
     * are nondeterministic: with a draw below epsilon any action may be returned, otherwise
     * any action of greatest value. With epsilon 0 the choice is always greedy.
     */
    method ChooseAction(state: int) returns (a: int)
      ensures a in actions
      ensures epsilon <= 0.0 ==> QGet(q, state, a) == MaxQ(q, state, actions)
    {
      assert 0.0 <= 0.0 < 1.0 && actions[0] in actions;
      var draw: real :| 0.0 <= draw < 1.0;
      if draw < epsilon {
        a :| a in actions;
      } else {
        var best := BestActions(q, state, actions, MaxQ(q, state, actions));
        var top :| top in actions && QGet(q, state, top) == MaxQ(q, state, actions);
        assert top in best;
        a :| a in best;
      }
    }

    /** `actualizar_Q`: one temporal-difference update of the single key (state, action). */
    method UpdateQ(state: int, action: int, reward: real, next: int)
      modifies this`q
      ensures q == TdUpdate(old(q), state, action, reward, next, alpha, gamma, actions)
    {
      var current := QGet(q, state, action);
      var nextMax := MaxQ(q, next, actions);
      var updated := current + alpha * (reward + gamma * nextMax - current);
      assert updated == TdValue(current, TdTarget(reward, gamma, nextMax), alpha);
      q := q[(state, action) := updated];
    }

    /** `Q_values`. */
    function QValues(): (r: map<int, real>)
      reads this
      ensures r.Keys == StatesOf(q)
      ensures forall s :: s in r ==> r[s] == (QGet(q, s, -1) + QGet(q, s, 1)) / 2.0
    {
      var r := StateValues(q, actions);
      assert actions == [-1, 1] && actions[1..] == [1] && actions[1..][1..] == [];
      forall s ensures SumQ(q, s, actions) == QGet(q, s, -1) + QGet(q, s, 1) {
        assert SumQ(q, s, actions[1..]) == QGet(q, s, 1) + SumQ(q, s, []);
      }
      r
    }

    /**
     * `step()`, which the episode loop calls but which the agent class does not define:
     * it reports the current cell as the state and some next cell, and moves there.
     * Which action, reward and next cell it produces is left open.
     */
    method Step() returns (state: int, action: int, reward: real, next: int)
      modifies this`pos
      ensures state == old(pos) && pos == next && action in actions
    {
      state := pos;
      assert actions[0] in actions;
      action :| action in actions;
      reward :| true;
      next :| true;
      pos := next;
    }
  }
}
