/** The second engine variant (sim_v2/sim.go). Its world is the world of
    sim/sim.go line for line: the same registry, food and event log, the same
    metabolism, moves, feeding and attack, and the same non-learning parts of
    reproduction and merging. The model therefore keeps the world in a
    `SimV1.Sim` and its agents' bodies in `SimV1.Agent` objects, and adds what
    sim_v2 adds: each agent's tabular Q-learner (an `Agent` of this module,
    linked to its body), the discretised state, epsilon-greedy choice, the
    one-entry update, epsilon decay, the step reward, and the Q-table blending
    of merging and reproduction. */
module SimV2 {
  import opened Basics
  import opened QTables
  import opened Events
  import SimV1

  /** The discretised state: direction code toward the nearest food (0-8),
      distance bucket of that food (0-4), energy bucket (0-4), male rivals close
      by (0-3) and agents close by (0-3). */
  datatype StateKey = StateKey(foodDirection: int, foodDistance: int, energyLevel: int,
                               threatLevel: int, nearbyAgents: int)

  predicate InRange(k: StateKey)
  {
    && 0 <= k.foodDirection < 9
    && 0 <= k.foodDistance < 5
    && 0 <= k.energyLevel < 5
    && 0 <= k.threatLevel < 4
    && 0 <= k.nearbyAgents < 4
  }

  /** The 9*5*5*4*4 states `initializeQTable` enumerates. */
  function AllStates(): set<StateKey>
  {
    set fd: int, di: int, e: int, t: int, n: int |
      0 <= fd < 9 && 0 <= di < 5 && 0 <= e < 5 && 0 <= t < 4 && 0 <= n < 4 :: StateKey(fd, di, e, t, n)
  }

  lemma AllStatesInRange(k: StateKey)
    ensures k in AllStates() <==> InRange(k)
  {
    if InRange(k) {
      assert k == StateKey(k.foodDirection, k.foodDistance, k.energyLevel, k.threatLevel, k.nearbyAgents);
    }
  }

  // ---------------------------------------------------------------------------
  // The initial table.

  /** A starting value `rand*0.1 - 0.05` made from the uniform draw `u`. */
  function InitialValue(u: real): (v: real)
    ensures 0.0 <= u < 1.0 ==> -0.05 <= v < 0.05
  {
    u * 0.1 - 0.05
  }

  /** One state's starting row: actions 0..8, the value of action k drawn as `u(s, k)`. */
  function InitialRow(s: StateKey, u: (StateKey, int) -> real): Row
  {
    map k | 0 <= k < 9 :: InitialValue(u(s, k))
  }

  /** The table `initializeQTable` writes: a full starting row for every state in range. */
  function InitialTable(u: (StateKey, int) -> real): map<StateKey, Row>
  {
    map s | s in AllStates() :: InitialRow(s, u)
  }

  /** Every state in range, so every key `GetStateKey` produces, has a row
      holding exactly the nine actions in an initialized table. */
  lemma InitialTableCovers(u: (StateKey, int) -> real, k: StateKey)
    requires InRange(k)
    ensures k in InitialTable(u)
    ensures forall a :: a in InitialTable(u)[k] <==> IsAction(a)
  {
    AllStatesInRange(k);
  }

  /** The innermost loop of `initializeQTable`: one state's nine actions. */
  method InitialRowFrom(s: StateKey, u: (StateKey, int) -> real) returns (row: Row)
    ensures row == InitialRow(s, u)
  {
    row := map[];
    for action := 0 to 9
      invariant forall k :: k in row <==> 0 <= k < action
      invariant forall k :: k in row ==> row[k] == InitialValue(u(s, k))
    {
      row := row[action := InitialValue(u(s, action))];
    }
    assert row.Keys == InitialRow(s, u).Keys;
  }

  /** State `s` comes before position (fd, di, e, t, n) of the five nested loops. */
  ghost predicate Before(s: StateKey, fd: int, di: int, e: int, t: int, n: int)
  {
    || s.foodDirection < fd
    || (s.foodDirection == fd && s.foodDistance < di)
    || (s.foodDirection == fd && s.foodDistance == di && s.energyLevel < e)
    || (s.foodDirection == fd && s.foodDistance == di && s.energyLevel == e && s.threatLevel < t)
    || (s.foodDirection == fd && s.foodDistance == di && s.energyLevel == e && s.threatLevel == t
        && s.nearbyAgents < n)
  }

  /** `q` is `q0` with the starting rows of every state in range the loops have
      passed before position (fd, di, e, t, n). */
  ghost predicate FilledUpTo(q: map<StateKey, Row>, q0: map<StateKey, Row>, u: (StateKey, int) -> real,
                             fd: int, di: int, e: int, t: int, n: int)
  {
    && (forall s :: s in q <==> s in q0 || (InRange(s) && Before(s, fd, di, e, t, n)))
    && (forall s :: s in q ==>
          q[s] == if InRange(s) && Before(s, fd, di, e, t, n) then InitialRow(s, u) else q0[s])
  }

  lemma FilledNext(q: map<StateKey, Row>, q0: map<StateKey, Row>, u: (StateKey, int) -> real, s: StateKey)
    requires InRange(s)
    requires FilledUpTo(q, q0, u, s.foodDirection, s.foodDistance, s.energyLevel, s.threatLevel, s.nearbyAgents)
    ensures FilledUpTo(q[s := InitialRow(s, u)], q0, u,
                       s.foodDirection, s.foodDistance, s.energyLevel, s.threatLevel, s.nearbyAgents + 1)
  {
    forall x | InRange(x)
      ensures Before(x, s.foodDirection, s.foodDistance, s.energyLevel, s.threatLevel, s.nearbyAgents + 1)
        <==> Before(x, s.foodDirection, s.foodDistance, s.energyLevel, s.threatLevel, s.nearbyAgents) || x == s
    {
    }
  }

  /** Two loop positions that have passed the same states in range. */
  lemma FilledCarry(q: map<StateKey, Row>, q0: map<StateKey, Row>, u: (StateKey, int) -> real,
                    fd: int, di: int, e: int, t: int, n: int, fd': int, di': int, e': int, t': int, n': int)
    requires FilledUpTo(q, q0, u, fd, di, e, t, n)
    requires forall s :: InRange(s) ==> (Before(s, fd, di, e, t, n) <==> Before(s, fd', di', e', t', n'))
    ensures FilledUpTo(q, q0, u, fd', di', e', t', n')
  {
  }

  lemma FilledAll(q: map<StateKey, Row>, q0: map<StateKey, Row>, u: (StateKey, int) -> real)
    requires FilledUpTo(q, q0, u, 9, 0, 0, 0, 0)
    ensures q == q0 + InitialTable(u)
  {
    forall s
      ensures s in AllStates() <==> InRange(s)
    {
      AllStatesInRange(s);
    }
    assert q.Keys == (q0 + InitialTable(u)).Keys;
  }

  /** The five nested loops of `initializeQTable`, over a table `q0`: every state in
      range gets its starting row, every other state keeps its row. */
  method WithInitialTable(q0: map<StateKey, Row>, u: (StateKey, int) -> real) returns (q: map<StateKey, Row>)
    ensures q == q0 + InitialTable(u)
  {
    q := q0;
    for fd := 0 to 9
      invariant FilledUpTo(q, q0, u, fd, 0, 0, 0, 0)
    {
      for di := 0 to 5
        invariant FilledUpTo(q, q0, u, fd, di, 0, 0, 0)
      {
        for e := 0 to 5
          invariant FilledUpTo(q, q0, u, fd, di, e, 0, 0)
        {
          for t := 0 to 4
            invariant FilledUpTo(q, q0, u, fd, di, e, t, 0)
          {
            for n := 0 to 4
              invariant FilledUpTo(q, q0, u, fd, di, e, t, n)
            {
              var s := StateKey(fd, di, e, t, n);
              var row := InitialRowFrom(s, u);
              FilledNext(q, q0, u, s);
              q := q[s := row];
            }
            FilledCarry(q, q0, u, fd, di, e, t, 4, fd, di, e, t + 1, 0);
          }
          FilledCarry(q, q0, u, fd, di, e, 4, 0, fd, di, e + 1, 0, 0);
        }
        FilledCarry(q, q0, u, fd, di, 5, 0, 0, fd, di + 1, 0, 0, 0);
      }
      FilledCarry(q, q0, u, fd, 5, 0, 0, 0, fd + 1, 0, 0, 0, 0);
    }
    FilledAll(q, q0, u);
  }

  // ---------------------------------------------------------------------------
  // State discretisation (getStateKey).

  /** The direction code `(clamp(fy-y)+1)*3 + clamp(fx-x)+1` toward a food found
      at (fx, fy), or 8 when the search found none and left fx at -1. */
  function FoodDirection(fx: int, fy: int, x: int, y: int): int
  {
    if fx >= 0 then EncodeAction(Clamp(fx - x, -1, 1), Clamp(fy - y, -1, 1)) else 8
  }

  /** The direction code of a found food is the action that steps toward it. */
  lemma FoodDirectionStepsToward(fx: int, fy: int, x: int, y: int)
    requires fx >= 0
    ensures IsAction(FoodDirection(fx, fy, x, y))
    ensures ActionDx(FoodDirection(fx, fy, x, y)) == Clamp(fx - x, -1, 1)
    ensures ActionDy(FoodDirection(fx, fy, x, y)) == Clamp(fy - y, -1, 1)
  {
    EncodeDecode(Clamp(fx - x, -1, 1), Clamp(fy - y, -1, 1));
  }

  /** Distance bucket: at most 2, 5, 10 or 20 steps, else 4. */
  function DistanceBucket(d: real): (b: int)
    ensures 0 <= b <= 4
  {
    if d <= 2.0 then 0 else if d <= 5.0 then 1 else if d <= 10.0 then 2 else if d <= 20.0 then 3 else 4
  }

  /** Energy bucket: above 150, 100, 50 or 25, else 0. */
  function EnergyLevel(e: real): (b: int)
    ensures 0 <= b <= 4
  {
    if e > 150.0 then 4 else if e > 100.0 then 3 else if e > 50.0 then 2 else if e > 25.0 then 1 else 0
  }

  /** Nearer food never gets a farther bucket, more energy never a lower one. */
  lemma BucketsMonotone(d1: real, d2: real, e1: real, e2: real)
    ensures d1 <= d2 ==> DistanceBucket(d1) <= DistanceBucket(d2)
    ensures e1 <= e2 ==> EnergyLevel(e1) <= EnergyLevel(e2)
  {
  }

  /** `j` is a food nearest to (x, y). */
  ghost predicate NearestFoodKey(foods: map<int, SimV1.Food>, x: int, y: int, j: int)
  {
    j in foods && forall i :: i in foods ==> SimV1.FoodDistance(foods[j], x, y) <= SimV1.FoodDistance(foods[i], x, y)
  }

  /** A male other than `a` within distance 2. */
  ghost predicate Rival(o: SimV1.Agent, a: SimV1.Agent)
    reads o, a
  {
    o.id != a.id && o.sex == Male && SimV1.AgentDistance(o, a) <= 2
  }

  /** Any agent other than `a` within distance 3. */
  ghost predicate Neighbour(o: SimV1.Agent, a: SimV1.Agent)
    reads o, a
  {
    o.id != a.id && SimV1.AgentDistance(o, a) <= 3
  }

  ghost function Rivals(agents: map<int, SimV1.Agent>, a: SimV1.Agent): set<int>
    reads agents.Values, a
  {
    set id | id in agents && Rival(agents[id], a)
  }

  ghost function Neighbours(agents: map<int, SimV1.Agent>, a: SimV1.Agent): set<int>
    reads agents.Values, a
  {
    set id | id in agents && Neighbour(agents[id], a)
  }

  /** The food loop of `getStateKey`: the position and distance of a nearest food
      strictly below the float64 maximum, or (-1, -1) and that maximum; `nearest`
      names the food's key. */
  method NearestFood(foods: map<int, SimV1.Food>, x: int, y: int) returns (fx: int, fy: int, best: real, nearest: int)
    ensures best <= SimV1.MaxFloat64
    ensures forall k :: k in foods ==> best <= SimV1.FoodDistance(foods[k], x, y)
    ensures best < SimV1.MaxFloat64 ==>
      nearest in foods && foods[nearest].x == fx && foods[nearest].y == fy && SimV1.FoodDistance(foods[nearest], x, y) == best
    ensures best == SimV1.MaxFloat64 ==> fx == -1 && fy == -1
  {
    fx, fy, nearest := -1, -1, 0;
    best := SimV1.MaxFloat64;
    var rest := foods.Keys;
    while rest != {}
      invariant rest <= foods.Keys
      invariant best <= SimV1.MaxFloat64
      invariant forall k :: k in foods && k !in rest ==> best <= SimV1.FoodDistance(foods[k], x, y)
      invariant best < SimV1.MaxFloat64 ==>
        nearest in foods && foods[nearest].x == fx && foods[nearest].y == fy && SimV1.FoodDistance(foods[nearest], x, y) == best
      invariant best == SimV1.MaxFloat64 ==> fx == -1 && fy == -1
      decreases rest
    {
      ghost var some := Pick(rest);  // the witness the `:|` below needs (see Basics.Pick)
      var k :| k in rest;
      var d := SimV1.FoodDistance(foods[k], x, y);
      if d < best {
        best := d;
        fx, fy, nearest := foods[k].x, foods[k].y, k;
      }
      rest := rest - {k};
    }
  }

  /** The threat loop of `getStateKey`: the number of rivals of `a`. */
  method CountRivals(agents: map<int, SimV1.Agent>, a: SimV1.Agent) returns (n: int)
    ensures n == |Rivals(agents, a)|
  {
    n := 0;
    ghost var seen: set<int> := {};
    var rest := agents.Keys;
    while rest != {}
      invariant rest <= agents.Keys
      invariant forall id :: id in seen <==> id in agents && id !in rest && Rival(agents[id], a)
      invariant n == |seen|
      decreases rest
    {
      ghost var some := Pick(rest);  // the witness the `:|` below needs (see Basics.Pick)
      var id :| id in rest;
      var o := agents[id];
      if o.id != a.id && o.sex == Male && SimV1.AgentDistance(o, a) <= 2 {
        seen := seen + {id};
        n := n + 1;
      }
      rest := rest - {id};
    }
    assert forall id :: id in seen <==> id in Rivals(agents, a);
    assert seen == Rivals(agents, a);
  }

  /** The crowding loop of `getStateKey`: the number of neighbours of `a`. */
  method CountNeighbours(agents: map<int, SimV1.Agent>, a: SimV1.Agent) returns (n: int)
    ensures n == |Neighbours(agents, a)|
  {
    n := 0;
    ghost var seen: set<int> := {};
    var rest := agents.Keys;
    while rest != {}
      invariant rest <= agents.Keys
      invariant forall id :: id in seen <==> id in agents && id !in rest && Neighbour(agents[id], a)
      invariant n == |seen|
      decreases rest
    {
      ghost var some := Pick(rest);  // the witness the `:|` below needs (see Basics.Pick)
      var id :| id in rest;
      var o := agents[id];
      if o.id != a.id && SimV1.AgentDistance(o, a) <= 3 {
        seen := seen + {id};
        n := n + 1;
      }
      rest := rest - {id};
    }
    assert forall id :: id in seen <==> id in Neighbours(agents, a);
    assert seen == Neighbours(agents, a);
  }

  /** `getStateKey`: the key of agent `a` in `world`. It is always in range, so it
      always has a full row in an initialized table (`InitialTableCovers`). */
  method GetStateKey(world: SimV1.Sim, a: SimV1.Agent) returns (k: StateKey)
    ensures InRange(k)
    ensures k.energyLevel == EnergyLevel(a.energy)
    ensures k.threatLevel == Min(|Rivals(world.agents, a)|, 3)
    ensures k.nearbyAgents == Min(|Neighbours(world.agents, a)|, 3)
    ensures (forall j :: j in world.foods ==> SimV1.FoodDistance(world.foods[j], a.x, a.y) >= SimV1.MaxFloat64) ==>
      k.foodDirection == 8 && k.foodDistance == 4
    ensures (exists j :: j in world.foods && SimV1.FoodDistance(world.foods[j], a.x, a.y) < SimV1.MaxFloat64) ==>
      exists j :: && NearestFoodKey(world.foods, a.x, a.y, j)
                  && k.foodDirection == FoodDirection(world.foods[j].x, world.foods[j].y, a.x, a.y)
                  && k.foodDistance == DistanceBucket(SimV1.FoodDistance(world.foods[j], a.x, a.y))
  {
    var fx, fy, best, nearest := NearestFood(world.foods, a.x, a.y);
    var foodDir := FoodDirection(fx, fy, a.x, a.y);
    var foodDist := if best < SimV1.MaxFloat64 then DistanceBucket(best) else 4;
    if best < SimV1.MaxFloat64 {
      assert NearestFoodKey(world.foods, a.x, a.y, nearest);
    }
    var threats := CountRivals(world.agents, a);
    var nearby := CountNeighbours(world.agents, a);
    k := StateKey(foodDir, foodDist, EnergyLevel(a.energy), Min(threats, 3), Min(nearby, 3));
  }

  // ---------------------------------------------------------------------------
  // Epsilon decay and the step reward of Tick.

  /** Tick's epsilon decay: multiplied by 0.9995 while above 0.01. */
  function Decayed(e: real): real
  {
    if e > 0.01 then e * 0.9995 else e
  }

  /** One step never raises epsilon, keeps it positive, and does not take it
      below 0.01 * 0.9995 from at or above that level. */
  lemma DecayedBounds(e: real)
    ensures Decayed(e) <= e
    ensures e > 0.0 ==> Decayed(e) > 0.0
    ensures e >= 0.009995 ==> Decayed(e) >= 0.009995
  {
    if e > 0.01 {
      assert e - e * 0.9995 == e * 0.0005;
      assert e * 0.9995 - 0.009995 == (e - 0.01) * 0.9995;
    }
  }

  /** Epsilon after `n` ticks. */
  function DecayedTimes(e: real, n: nat): real
  {
    if n == 0 then e else Decayed(DecayedTimes(e, n - 1))
  }

  /** However many ticks pass, epsilon never increases, stays positive, and
      stays at least min(e, 0.01 * 0.9995). */
  lemma {:induction false} DecayForever(e: real, n: nat)
    requires e > 0.0
    ensures 0.0 < DecayedTimes(e, n) <= e
    ensures DecayedTimes(e, n) >= RMin(e, 0.009995)
  {
    if n > 0 {
      DecayForever(e, n - 1);
      DecayedBounds(DecayedTimes(e, n - 1));
    }
  }

  /** Tick's reward: the energy gained, 5 per kill, 3 per birth, 1.5 per step
      closer to food, and 0.1 for ending above 50 energy. */
  function Reward(oldEnergy: real, energy: real, oldKills: int, kills: int, oldRepro: int, repro: int,
                  oldDist: real, newDist: real): real
  {
    var r := (energy - oldEnergy) + (kills - oldKills) as real * 5.0 + (repro - oldRepro) as real * 3.0
             + (oldDist - newDist) * 1.5;
    if energy > 50.0 then r + 0.1 else r
  }

  /** What each event is worth: one more kill adds 5, one more birth 3, one step
      nearer the food 1.5; a step that changes nothing earns only the 0.1 bonus. */
  lemma RewardIncentives(oldEnergy: real, energy: real, oldKills: int, kills: int, oldRepro: int, repro: int,
                         oldDist: real, newDist: real)
    ensures Reward(oldEnergy, energy, oldKills, kills + 1, oldRepro, repro, oldDist, newDist)
         == Reward(oldEnergy, energy, oldKills, kills, oldRepro, repro, oldDist, newDist) + 5.0
    ensures Reward(oldEnergy, energy, oldKills, kills, oldRepro, repro + 1, oldDist, newDist)
         == Reward(oldEnergy, energy, oldKills, kills, oldRepro, repro, oldDist, newDist) + 3.0
    ensures Reward(oldEnergy, energy, oldKills, kills, oldRepro, repro, oldDist, newDist - 1.0)
         == Reward(oldEnergy, energy, oldKills, kills, oldRepro, repro, oldDist, newDist) + 1.5
    ensures Reward(energy, energy, kills, kills, repro, repro, newDist, newDist) == if energy > 50.0 then 0.1 else 0.0
  {
  }

  // ---------------------------------------------------------------------------
  // Merge weights.

  /** The merge weights are the two shares of the combined energy: non-negative
      and summing to less than 1. */
  lemma MergeWeightsShare(ea: real, eb: real)
    requires ea >= 0.0 && eb >= 0.0 && ea + eb > 40.0
    ensures 0.0 <= SimV1.MergeWeight(ea, ea + eb) && 0.0 <= SimV1.MergeWeight(eb, ea + eb)
    ensures SimV1.MergeWeight(ea, ea + eb) + SimV1.MergeWeight(eb, ea + eb) < 1.0
  {
    var c := ea + eb + 0.000000001;
    assert SimV1.MergeWeight(ea, ea + eb) + SimV1.MergeWeight(eb, ea + eb) == (ea + eb) / c;
  }

  /** A rate blended from two rates in [0, 1] with such weights stays in [0, 1]. */
  lemma BlendStaysInUnit(x: real, y: real, wa: real, wb: real)
    requires 0.0 <= x <= 1.0 && 0.0 <= y <= 1.0
    requires 0.0 <= wa && 0.0 <= wb && wa + wb <= 1.0
    ensures 0.0 <= x * wa + y * wb <= 1.0
  {
    ProductNonNegative(x, wa);
    ProductNonNegative(y, wb);
    ProductNonNegative(1.0 - x, wa);
    ProductNonNegative(1.0 - y, wb);
    assert wa - x * wa == (1.0 - x) * wa;
    assert wb - y * wb == (1.0 - y) * wb;
    assert x * wa <= wa && y * wb <= wb;
  }

  lemma ProductNonNegative(a: real, b: real)
    requires 0.0 <= a && 0.0 <= b
    ensures 0.0 <= a * b
  {
  }

  // ---------------------------------------------------------------------------
  // The learner.

  /** The learning fields of one agent, kept beside its body. */
  class Agent {
    const body: SimV1.Agent
    var qTable: map<StateKey, Row>
    var lastState: StateKey
    var lastAction: int
    var epsilon: real
    var alpha: real
    var gamma: real
    var policyDir: int

    /** The learner `AddAgentAt` and `addRandomAgent` give a new agent: epsilon
        0.3, alpha 0.1, gamma 0.95, policy direction 4 and a full starting table;
        the last state and action hold Go's zero values. */
    constructor Newborn(body: SimV1.Agent, u: (StateKey, int) -> real)
      ensures this.body == body && qTable == InitialTable(u)
      ensures lastState == StateKey(0, 0, 0, 0, 0) && lastAction == 0
      ensures epsilon == 0.3 && alpha == 0.1 && gamma == 0.95 && policyDir == 4
    {
      this.body := body;
      qTable := map[];
      lastState := StateKey(0, 0, 0, 0, 0);
      lastAction := 0;
      epsilon := 0.3;
      alpha := 0.1;
      gamma := 0.95;
      policyDir := 4;
      new;
      InitializeQTable(u);
      assert qTable == InitialTable(u);
    }

    /** The child's learner from `tryReproduce`: the parents' mean rates, policy
        direction 4, and the inherited table (see `ChildTable`). */
    constructor Inherit(body: SimV1.Agent, pa: Agent, pb: Agent, noise: (StateKey, int) -> real)
      ensures this.body == body && qTable == ChildTable(pa.qTable, pb.qTable, noise)
      ensures epsilon == (pa.epsilon + pb.epsilon) / 2.0
      ensures alpha == (pa.alpha + pb.alpha) / 2.0
      ensures gamma == (pa.gamma + pb.gamma) / 2.0
      ensures lastState == StateKey(0, 0, 0, 0, 0) && lastAction == 0 && policyDir == 4
    {
      this.body := body;
      var q := ChildTableFrom(pa.qTable, pb.qTable, noise);
      qTable := q;
      epsilon := (pa.epsilon + pb.epsilon) / 2.0;
      alpha := (pa.alpha + pb.alpha) / 2.0;
      gamma := (pa.gamma + pb.gamma) / 2.0;
      lastState := StateKey(0, 0, 0, 0, 0);
      lastAction := 0;
      policyDir := 4;
    }

    /** `initializeQTable`: every state in range gets a starting row. */
    method InitializeQTable(u: (StateKey, int) -> real)
      modifies this`qTable
      ensures qTable == old(qTable) + InitialTable(u)
    {
      qTable := WithInitialTable(qTable, u);
    }

    /** `chooseAction`: explore when the roll is below epsilon, taking the drawn
        action in 0..8; otherwise the greedy scan started at action 4. The greedy
        action holds the largest value stored for the state. */
    method ChooseAction(state: StateKey, roll: real, randomAction: int) returns (act: int)
      requires 0 <= randomAction < 9
      ensures roll < epsilon ==> act == randomAction
      ensures roll >= epsilon ==> GreedyFrom(RowOf(qTable, state), 4, Get(RowOf(qTable, state), 4), act)
      ensures roll >= epsilon ==>
        forall k :: k in RowOf(qTable, state) ==> RowOf(qTable, state)[k] <= Get(RowOf(qTable, state), act)
      ensures (forall k :: k in RowOf(qTable, state) ==> IsAction(k)) ==> IsAction(act)
    {
      if roll < epsilon {
        return randomAction;
      }
      var row := RowOf(qTable, state);
      act := ArgMaxFrom(row, 4, Get(row, 4));
      GreedyIsArgMax(row, 4, act);
    }

    /** Tick records the state and action it acted on, and shows the action as
        the policy direction. */
    method Remember(state: StateKey, action: int)
      modifies this`lastState, this`lastAction, this`policyDir
      ensures lastState == state && lastAction == action && policyDir == action
    {
      lastState := state;
      lastAction := action;
      policyDir := action;
    }

    /** `updateQTable`: only the entry of the last state and action changes, to
        `TDUpdate` of its old value (0 when missing) with maxNext the largest
        value of the next state, or 0. Go writes into the last state's row, so
        that row must exist. */
    method UpdateQTable(nextState: StateKey, reward: real)
      requires lastAction == -1 || lastState in qTable
      modifies this`qTable
      ensures lastAction == -1 ==> qTable == old(qTable)
      ensures lastAction != -1 ==>
        qTable == old(qTable)[lastState := old(qTable)[lastState][lastAction :=
          TDUpdate(Get(old(qTable)[lastState], lastAction), alpha, gamma, reward,
                   MaxOr0(RowOf(old(qTable), nextState)))]]
    {
      if lastAction == -1 {
        return;
      }
      var oldQ := Get(qTable[lastState], lastAction);
      var maxNext := 0.0;
      if nextState in qTable {
        maxNext := MaxValueOrZero(qTable[nextState]);
      } else {
        assert RowOf(qTable, nextState) == map[];
      }
      assert maxNext == MaxOr0(RowOf(qTable, nextState));
      var newQ := oldQ + alpha * (reward + gamma * maxNext - oldQ);
      assert newQ == TDUpdate(Get(qTable[lastState], lastAction), alpha, gamma, reward, MaxOr0(RowOf(qTable, nextState)));
      qTable := qTable[lastState := qTable[lastState][lastAction := newQ]];
    }

    /** Tick's epsilon decay (see `DecayForever`). */
    method DecayEpsilon()
      modifies this`epsilon
      ensures epsilon == Decayed(old(epsilon))
    {
      if epsilon > 0.01 {
        epsilon := epsilon * 0.9995;
      }
    }

    /** The learning half of `tryMerge`: the other's table merged in with the
        energy weights (see `MergeTables`), and the rates blended with the same
        weights. */
    method AbsorbTable(other: Agent, wa: real, wb: real)
      modifies this`qTable, this`epsilon, this`alpha, this`gamma
      ensures qTable == MergeTables(old(qTable), old(other.qTable), wa, wb)
      ensures epsilon == old(epsilon) * wa + old(other.epsilon) * wb
      ensures alpha == old(alpha) * wa + old(other.alpha) * wb
      ensures gamma == old(gamma) * wa + old(other.gamma) * wb
    {
      var q := MergeTablesFrom(qTable, other.qTable, wa, wb);
      var e, al, g := epsilon * wa + other.epsilon * wb, alpha * wa + other.alpha * wb, gamma * wa + other.gamma * wb;
      qTable, epsilon, alpha, gamma := q, e, al, g;
    }
  }

  // ---------------------------------------------------------------------------
  // The operations of sim_v2 that extend sim/sim.go's.

  /** `AddAgentAt`: sim/sim.go's placement, plus a learner with a full starting table. */
  method AddAgentAt(world: SimV1.Sim, x: int, y: int, energy: real, sex: Sex, aggression: real, speed: int,
                    strength: real, repro: real, u: (StateKey, int) -> real) returns (learner: Agent?)
    requires world.Valid()
    modifies world`agents, world`nextID, world`totalBirths, world`lineage
    ensures world.Valid()
    ensures !InBounds(x, y, world.W, world.H) ==>
      && learner == null && world.agents == old(world.agents) && world.nextID == old(world.nextID)
      && world.totalBirths == old(world.totalBirths) && world.lineage == old(world.lineage)
    ensures InBounds(x, y, world.W, world.H) ==>
      && learner != null && fresh(learner)
      && world.nextID == old(world.nextID) + 1 && world.nextID !in old(world.agents)
      && world.agents == old(world.agents)[world.nextID := learner.body]
      && learner.body.View() == SimV1.Newcomer(world.nextID, x, y, energy, sex, aggression, speed, strength, repro)
      && world.totalBirths == old(world.totalBirths) + 1 && world.lineage == old(world.lineage)[world.nextID := []]
      && learner.qTable == InitialTable(u)
      && learner.epsilon == 0.3 && learner.alpha == 0.1 && learner.gamma == 0.95 && learner.policyDir == 4
  {
    world.AddAgentAt(x, y, energy, sex, aggression, speed, strength, repro);
    if InBounds(x, y, world.W, world.H) {
      learner := new Agent.Newborn(world.agents[world.nextID], u);
    } else {
      learner := null;
    }
  }

  /** `tryMerge`: sim/sim.go's merge of the bodies, then the survivor's learner
      absorbs the other's, weighted by the energies before the merge. */
  method TryMerge(world: SimV1.Sim, a: Agent, other: Agent, found: bool) returns (merged: bool)
    requires world.Valid() && world.Live(a.body)
    requires found ==> world.MergeEligible(a.body, other.body)
    modifies world`agents, world`lineage, world`events
    modifies a.body`energy, a.body`aggression, a.body`strength, a.body`repro, a.body`speed,
             a.body`experience, a.body`parents
    modifies a`qTable, a`epsilon, a`alpha, a`gamma
    ensures world.Valid()
    ensures merged <==> found
    ensures !merged ==>
      && world.agents == old(world.agents) && world.lineage == old(world.lineage) && world.events == old(world.events)
      && a.body.View() == old(a.body.View())
      && a.qTable == old(a.qTable) && a.epsilon == old(a.epsilon) && a.alpha == old(a.alpha) && a.gamma == old(a.gamma)
    ensures merged ==> old(a.body.energy) + other.body.energy > 40.0
    ensures merged ==>
      && a.body.View() == SimV1.Merged(old(a.body.View()), other.body.View())
      && world.lineage == old(world.lineage)[a.body.id := a.body.parents]
      && world.agents == old(world.agents) - {other.body.id} && |world.agents| == |old(world.agents)| - 1
      && world.events == Appended(old(world.events), Event(Merge, world.ticksElapsed, a.body.id, a.body.sex, other.body.id))
      && (var combined := old(a.body.energy) + other.body.energy;
          var wa, wb := SimV1.MergeWeight(old(a.body.energy), combined), SimV1.MergeWeight(other.body.energy, combined);
          && a.qTable == MergeTables(old(a.qTable), old(other.qTable), wa, wb)
          && a.epsilon == old(a.epsilon) * wa + old(other.epsilon) * wb
          && a.alpha == old(a.alpha) * wa + old(other.alpha) * wb
          && a.gamma == old(a.gamma) * wa + old(other.gamma) * wb)
  {
    var ea, eb := a.body.energy, other.body.energy;
    merged := world.TryMerge(a.body, other.body, found);
    if merged {
      ghost var body, valid := a.body.View(), world.Valid();
      a.AbsorbTable(other, SimV1.MergeWeight(ea, ea + eb), SimV1.MergeWeight(eb, ea + eb));
      assert a.body.View() == body && world.Valid() == valid;
    }
  }

  /** `tryReproduce`: sim/sim.go's birth, then the child's learner inherits from
      both parents' learners. */
  method TryReproduce(world: SimV1.Sim, a: Agent, partner: Agent, found: bool, childSex: Sex,
                      aggJitter: real, speedJitter: int, reproJitter: real, strengthJitter: real,
                      noise: (StateKey, int) -> real) returns (child: Agent?)
    requires world.Valid() && world.Live(a.body)
    requires found ==> world.MateEligible(a.body, partner.body)
    modifies world`agents, world`nextID, world`lineage, world`totalBirths, world`events
    modifies a.body`energy, a.body`experience, partner.body`energy, partner.body`experience
    ensures world.Valid()
    ensures !found ==>
      && child == null && world.agents == old(world.agents) && world.nextID == old(world.nextID)
      && world.lineage == old(world.lineage) && world.totalBirths == old(world.totalBirths)
      && world.events == old(world.events)
      && a.body.View() == old(a.body.View()) && partner.body.View() == old(partner.body.View())
    ensures found ==>
      && child != null && fresh(child)
      && world.nextID == old(world.nextID) + 1 && world.nextID !in old(world.agents)
      && world.agents == old(world.agents)[world.nextID := child.body]
      && world.lineage == old(world.lineage)[world.nextID := [a.body.id, partner.body.id]]
      && world.totalBirths == old(world.totalBirths) + 1
      && world.events == Appended(old(world.events), Event(Birth, world.ticksElapsed, world.nextID, childSex, 0))
      && child.body.View() == SimV1.Child(old(a.body.View()), old(partner.body.View()), world.nextID, childSex,
                                          aggJitter, speedJitter, reproJitter, strengthJitter)
      && a.body.View() == SimV1.Parent(old(a.body.View()))
      && partner.body.View() == SimV1.Parent(old(partner.body.View()))
      && child.qTable == ChildTable(a.qTable, partner.qTable, noise)
      && child.epsilon == (a.epsilon + partner.epsilon) / 2.0
      && child.alpha == (a.alpha + partner.alpha) / 2.0
      && child.gamma == (a.gamma + partner.gamma) / 2.0
  {
    var body := world.TryReproduce(a.body, partner.body, found, childSex,
                                   aggJitter, speedJitter, reproJitter, strengthJitter);
    if body == null {
      return null;
    }
    child := new Agent.Inherit(body, a, partner, noise);
  }
}
