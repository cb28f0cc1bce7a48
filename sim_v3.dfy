/** The third engine (sim_v3/sim.go): agents with a physiology (fatigue, hunger,
    stress, health), an eight-part state key, a Q-learner whose rates follow the
    agent's age, energy and reward, experience sharing and mutation at birth.
    Ids start at 0 and the registry does no bounds checking. */
module SimV3 {
  import opened Basics
  import opened QTables
  import SimV1

  /** The discretised observation of sim_v3. */
  datatype StateKey = StateKey(foodDirection: int, foodDistance: int, energyLevel: int, threatLevel: int,
                               nearbyAgents: int, fatigueLevel: int, hungerLevel: int, stressLevel: int)

  /** What the environment assessment reads of a nearby agent. */
  datatype Neighbour = Neighbour(x: int, y: int, aggression: real, strength: real)

  /** The random draws of `applyMutations`: for each trait a gate roll and the
      draw that sizes the change (`Intn(3) - 1` for speed). */
  datatype Mutation = Mutation(aggressionRoll: real, aggressionDraw: real, speedRoll: real, speedStep: int,
                               strengthRoll: real, strengthDraw: real, reproRoll: real, reproDraw: real)

  predicate Unit(u: real)
  {
    0.0 <= u < 1.0
  }

  /** Draws as `rand.Float64()` and `rand.Intn(3) - 1` produce them. */
  predicate Drawn(m: Mutation)
  {
    && Unit(m.aggressionRoll) && Unit(m.aggressionDraw) && Unit(m.speedRoll) && -1 <= m.speedStep <= 1
    && Unit(m.strengthRoll) && Unit(m.strengthDraw) && Unit(m.reproRoll) && Unit(m.reproDraw)
  }

  // ---------------------------------------------------------------------------
  // Physiology.

  /** One physiology counter after `v += inc; if v > 100 { v = 100 }`. */
  function Accumulated(v: real, inc: real): real
  {
    if v + inc > 100.0 then 100.0 else v + inc
  }

  /** Health after `h -= load/600; if h < 0 { h = 0 }`. */
  function Worn(h: real, load: real): real
  {
    if h - load / 600.0 < 0.0 then 0.0 else h - load / 600.0
  }

  /** A counter never exceeds 100, and one at most 100 never falls by a
      non-negative increment. */
  lemma AccumulatedBounds(v: real, inc: real)
    requires inc >= 0.0
    ensures Accumulated(v, inc) <= 100.0
    ensures v <= 100.0 ==> v <= Accumulated(v, inc)
    ensures v + inc <= 100.0 ==> Accumulated(v, inc) == v + inc
  {
  }

  /** Health is floored at 0 and falls under a non-negative load; a negative
      load (possible once stress has gone below zero) raises it. */
  lemma WornBounds(h: real, load: real)
    ensures Worn(h, load) >= 0.0
    ensures h >= 0.0 && load >= 0.0 ==> Worn(h, load) <= h
    ensures h >= 0.0 && load < 0.0 ==> Worn(h, load) > h
  {
  }

  // ---------------------------------------------------------------------------
  // State buckets of UpdateState.

  function EnergyBucket(e: real): int
  {
    var l := (e / 100.0 * 4.0).Floor;
    if l > 4 then 4 else l
  }

  function FatigueBucket(f: real): int
  {
    (f / 25.0).Floor
  }

  function HungerBucket(h: real): int
  {
    (h / 33.0).Floor
  }

  function StressBucket(s: real): int
  {
    (s / 33.0).Floor
  }

  /** With the physiology counters in [0, 100] the buckets are fatigue 0..4,
      hunger 0..3 and stress 0..3; the energy bucket never exceeds 4. */
  lemma BucketsInRange(e: real, f: real, h: real, s: real)
    ensures EnergyBucket(e) <= 4
    ensures e >= 0.0 ==> 0 <= EnergyBucket(e)
    ensures 0.0 <= f <= 100.0 ==> 0 <= FatigueBucket(f) <= 4
    ensures 0.0 <= h <= 100.0 ==> 0 <= HungerBucket(h) <= 3
    ensures 0.0 <= s <= 100.0 ==> 0 <= StressBucket(s) <= 3
  {
  }

  /** Stress below zero gives a negative stress bucket. */
  lemma NegativeStressBucket(s: real)
    requires -33.0 <= s < 0.0
    ensures StressBucket(s) == -1
  {
  }

  // ---------------------------------------------------------------------------
  // Environment assessment.

  /** `dist < 10`, compared on squares: both sides are non-negative. */
  predicate Close(o: Neighbour, x: int, y: int)
  {
    (o.x - x) * (o.x - x) + (o.y - y) * (o.y - y) < 100
  }

  /** The threat level after seeing one close neighbour. */
  function ThreatAfter(o: Neighbour, strength: real, t: int): int
  {
    if o.aggression > 0.7 && o.strength > strength then 2
    else if o.aggression > 0.5 then 1
    else t
  }

  /** The (threatLevel, nearbyAgents) pair `assessEnvironment` returns after
      walking `ns` in order: the count of close neighbours, and the threat set
      by the last close neighbour with aggression above 0.5. */
  function Assessment(x: int, y: int, strength: real, ns: seq<Neighbour>): (r: (int, int))
    ensures 0 <= r.0 <= 2 && 0 <= r.1 <= |ns|
    decreases |ns|
  {
    if ns == [] then (0, 0)
    else
      var prior := Assessment(x, y, strength, ns[..|ns| - 1]);
      var o := ns[|ns| - 1];
      if Close(o, x, y) then (ThreatAfter(o, strength, prior.0), prior.1 + 1) else prior
  }

  /** No close neighbour with aggression above 0.5 means no threat, and no close
      neighbour at all means nobody nearby. */
  lemma {:induction false} AssessmentQuiet(x: int, y: int, strength: real, ns: seq<Neighbour>)
    ensures (forall i :: 0 <= i < |ns| && Close(ns[i], x, y) ==> ns[i].aggression <= 0.5) ==>
      Assessment(x, y, strength, ns).0 == 0
    ensures (forall i :: 0 <= i < |ns| ==> !Close(ns[i], x, y)) ==> Assessment(x, y, strength, ns) == (0, 0)
    decreases |ns|
  {
    if ns != [] {
      var init := ns[..|ns| - 1];
      AssessmentQuiet(x, y, strength, init);
      assert forall i :: 0 <= i < |init| ==> init[i] == ns[i];
    }
  }

  /** The latest close neighbour decides a non-zero threat: a strong aggressive
      one last gives 2, whatever came before. */
  lemma AssessmentLastWins(x: int, y: int, strength: real, ns: seq<Neighbour>, o: Neighbour)
    requires Close(o, x, y) && o.aggression > 0.7 && o.strength > strength
    ensures Assessment(x, y, strength, ns + [o]).0 == 2
    ensures Assessment(x, y, strength, ns + [o]).1 == Assessment(x, y, strength, ns).1 + 1
  {
    assert (ns + [o])[..|ns + [o]| - 1] == ns;
  }

  /** `assessEnvironment`'s loop over the nearby agents. */
  method AssessEnvironment(x: int, y: int, strength: real, ns: seq<Neighbour>) returns (threat: int, nearby: int)
    ensures (threat, nearby) == Assessment(x, y, strength, ns)
  {
    threat, nearby := 0, 0;
    for i := 0 to |ns|
      invariant (threat, nearby) == Assessment(x, y, strength, ns[..i])
    {
      assert ns[..i + 1][..i] == ns[..i];
      if Close(ns[i], x, y) {
        nearby := nearby + 1;
        threat := ThreatAfter(ns[i], strength, threat);
      }
    }
    assert ns[..|ns|] == ns;
  }

  // ---------------------------------------------------------------------------
  // Experience totals and behaviour adaptation.

  /** The sum of all experience counters, in no particular order. */
  ghost function TotalCount(m: map<string, int>): int
    decreases |m|
  {
    if m == map[] then 0
    else
      var k := Pick(m.Keys);
      MapRemoveCard(m, k);
      m[k] + TotalCount(m - {k})
  }

  /** The total does not depend on which counter is taken first. */
  lemma {:induction false} TotalCountAny(m: map<string, int>, k: string)
    requires k in m
    ensures TotalCount(m) == m[k] + TotalCount(m - {k})
    decreases |m|
  {
    var j := Pick(m.Keys);
    if j != k {
      MapRemoveCard(m, j);
      MapRemoveCard(m, k);
      TotalCountAny(m - {j}, k);
      TotalCountAny(m - {k}, j);
      assert m - {j} - {k} == m - {k} - {j};
    }
  }

  /** Each counted event raises the total by one. */
  lemma TotalCountInc(m: map<string, int>, k: string)
    ensures TotalCount(Inc(m, k)) == TotalCount(m) + 1
  {
    var r := Inc(m, k);
    TotalCountAny(r, k);
    if k in m {
      TotalCountAny(m, k);
      assert r - {k} == m - {k};
    } else {
      assert r - {k} == m;
    }
  }

  /** The `for _, exp := range a.Experience { total += exp }` loop. */
  method TotalExperience(m: map<string, int>) returns (total: int)
    ensures total == TotalCount(m)
  {
    total := 0;
    var left := m;
    while left != map[]
      invariant total + TotalCount(left) == TotalCount(m)
      decreases |left|
    {
      ghost var some := Pick(left.Keys);  // the witness the `:|` below needs (see Basics.Pick)
      var k :| k in left;
      TotalCountAny(left, k);
      MapRemoveCard(left, k);
      total := total + left[k];
      left := left - {k};
    }
  }

  /** `adaptBehavior`'s exploration rate: 0.3 while young, 0.05 when old, and
      0.1 whenever energy is below 30. */
  function ExplorationFor(age: int, energy: real, epsilon: real): real
  {
    var e := if age < 50 then 0.3 else if age > 200 then 0.05 else epsilon;
    if energy < 30.0 then 0.1 else e
  }

  /** Adapting twice is adapting once (Tick assesses each agent twice), and a
      rate in [0.01, 0.3] stays there. */
  lemma ExplorationSettles(age: int, energy: real, epsilon: real)
    ensures ExplorationFor(age, energy, ExplorationFor(age, energy, epsilon)) == ExplorationFor(age, energy, epsilon)
    ensures 0.01 <= epsilon <= 0.3 ==> 0.01 <= ExplorationFor(age, energy, epsilon) <= 0.3
    ensures 50 <= age <= 200 && energy >= 30.0 ==> ExplorationFor(age, energy, epsilon) == epsilon
  {
  }

  /** `calculateBehaviorModifier`: 0.8 while young, 1.2 when old, times the
      energy fraction, times 1.5 once more than 10 events were counted. */
  function BehaviorModifier(age: int, energy: real, total: int): real
  {
    var ageModifier := if age < 50 then 0.8 else if age > 200 then 1.2 else 1.0;
    var experienceModifier := if total > 10 then 1.5 else 1.0;
    ageModifier * (energy / 100.0) * experienceModifier
  }

  /** The modifier scales the energy fraction by a factor between 0.8 and 1.8,
      exactly 1 for a middle-aged agent with little experience; more energy
      never lowers it. */
  lemma BehaviorModifierBounds(age: int, energy: real, energy': real, total: int)
    requires 0.0 <= energy <= energy'
    ensures 0.8 * (energy / 100.0) <= BehaviorModifier(age, energy, total) <= 1.8 * (energy / 100.0)
    ensures 50 <= age <= 200 && total <= 10 ==> BehaviorModifier(age, energy, total) == energy / 100.0
    ensures BehaviorModifier(age, energy, total) <= BehaviorModifier(age, energy', total)
  {
  }

  // ---------------------------------------------------------------------------
  // Learning-rate adaptation.

  /** `adaptLearningParameters`'s exploration decay, floored at 0.01. */
  function DecayedEpsilon(epsilon: real, reward: real): real
  {
    var e := if reward > 0.5 then epsilon * 0.995 else epsilon * 0.999;
    if e < 0.01 then 0.01 else e
  }

  function LearningRate(reward: real): real
  {
    if reward > 0.3 then 0.15 else 0.05
  }

  /** The decayed rate is at least 0.01 and never above the larger of the old
      rate and the floor; above the floor it strictly falls. */
  lemma DecayedEpsilonBounds(epsilon: real, reward: real)
    ensures 0.01 <= DecayedEpsilon(epsilon, reward) <= RMax(epsilon, 0.01)
    ensures epsilon > 0.01 ==> DecayedEpsilon(epsilon, reward) < epsilon
  {
  }

  /** The rate after a run of rewards. */
  function DecayedAll(epsilon: real, rewards: seq<real>): real
    decreases |rewards|
  {
    if rewards == [] then epsilon else DecayedAll(DecayedEpsilon(epsilon, rewards[0]), rewards[1..])
  }

  /** However long the run, the rate stays in [0.01, max(old, 0.01)]. */
  lemma {:induction false} DecayedAllBounds(epsilon: real, rewards: seq<real>)
    requires rewards != []
    ensures 0.01 <= DecayedAll(epsilon, rewards) <= RMax(epsilon, 0.01)
    decreases |rewards|
  {
    var e := DecayedEpsilon(epsilon, rewards[0]);
    DecayedEpsilonBounds(epsilon, rewards[0]);
    if |rewards| > 1 {
      DecayedAllBounds(e, rewards[1..]);
    }
  }

  /** Both learning rates lie in [0, 1], where a step moves the value toward the
      target and rate 0 leaves it unchanged. */
  lemma LearningStepBetween(q: real, reward: real, gamma: real, r: real, maxNext: real)
    ensures 0.0 <= LearningRate(reward) <= 1.0
    ensures var t, n := r + gamma * maxNext, BlendUpdate(q, LearningRate(reward), gamma, r, maxNext);
      (q <= t ==> q <= n <= t) && (t <= q ==> t <= n <= q)
    ensures BlendUpdate(q, 0.0, gamma, r, maxNext) == q
  {
    UpdatesAgree(q, LearningRate(reward), gamma, r, maxNext);
    UpdateMovesTowardTarget(q, LearningRate(reward), gamma, r, maxNext);
    UpdatesAgree(q, 0.0, gamma, r, maxNext);
    UpdateMovesTowardTarget(q, 0.0, gamma, r, maxNext);
  }

  // ---------------------------------------------------------------------------
  // Reward.

  /** `calculateReward` on the agent's fields. */
  function Reward(energy: real, age: int, hunger: real, fatigue: real, experience: map<string, int>,
                  socialGroupID: int, stress: real): real
  {
    energy / 100.0 + age as real / 1000.0 - hunger / 200.0 - fatigue / 200.0
    + Count(experience, "ate") as real / 100.0 + Count(experience, "kills") as real / 50.0
    + Count(experience, "repro") as real / 20.0
    + (if socialGroupID != -1 then 0.2 else 0.0)
    - stress / 200.0
  }

  /** What each event is worth: a birth 0.05, a kill 0.02, a meal record 0.01,
      group membership 0.2; a point of hunger, fatigue or stress costs 0.005. */
  lemma RewardIncentives(energy: real, age: int, hunger: real, fatigue: real, experience: map<string, int>,
                         group: int, stress: real)
    ensures Reward(energy, age, hunger, fatigue, Inc(experience, "repro"), group, stress)
         == Reward(energy, age, hunger, fatigue, experience, group, stress) + 0.05
    ensures Reward(energy, age, hunger, fatigue, Inc(experience, "kills"), group, stress)
         == Reward(energy, age, hunger, fatigue, experience, group, stress) + 0.02
    ensures Reward(energy, age, hunger, fatigue, Inc(experience, "ate"), group, stress)
         == Reward(energy, age, hunger, fatigue, experience, group, stress) + 0.01
    ensures group != -1 ==>
      Reward(energy, age, hunger, fatigue, experience, group, stress)
      == Reward(energy, age, hunger, fatigue, experience, -1, stress) + 0.2
    ensures Reward(energy, age, hunger + 1.0, fatigue, experience, group, stress)
         == Reward(energy, age, hunger, fatigue, experience, group, stress) - 0.005
    ensures Reward(energy, age, hunger, fatigue + 1.0, experience, group, stress)
         == Reward(energy, age, hunger, fatigue, experience, group, stress) - 0.005
    ensures Reward(energy, age, hunger, fatigue, experience, group, stress + 1.0)
         == Reward(energy, age, hunger, fatigue, experience, group, stress) - 0.005
  {
    assert Count(Inc(experience, "repro"), "kills") == Count(experience, "kills");
    assert Count(Inc(experience, "repro"), "ate") == Count(experience, "ate");
    assert Count(Inc(experience, "kills"), "repro") == Count(experience, "repro");
    assert Count(Inc(experience, "kills"), "ate") == Count(experience, "ate");
    assert Count(Inc(experience, "ate"), "repro") == Count(experience, "repro");
    assert Count(Inc(experience, "ate"), "kills") == Count(experience, "kills");
  }

  // ---------------------------------------------------------------------------
  // Mutation at birth.

  /** One real trait after its mutation: gated by `roll < 0.1`, clamped only
      when it fires. */
  function MutatedTrait(v: real, roll: real, delta: real, lo: real, hi: real): real
  {
    if roll < 0.1 then ClampF(v + delta, lo, hi) else v
  }

  function MutatedSpeed(v: int, roll: real, step: int): int
  {
    if roll < 0.1 then Clamp(v + step, 1, 5) else v
  }

  /** A trait in range stays in range and moves by at most the size of the
      change; a fired mutation lands in range whatever the start. */
  lemma MutatedTraitBounds(v: real, roll: real, delta: real, lo: real, hi: real)
    requires lo <= hi
    ensures lo <= v <= hi || roll < 0.1 ==> lo <= MutatedTrait(v, roll, delta, lo, hi) <= hi
    ensures lo <= v <= hi ==> -RAbs(delta) <= MutatedTrait(v, roll, delta, lo, hi) - v <= RAbs(delta)
  {
  }

  lemma MutatedSpeedBounds(v: int, roll: real, step: int)
    requires -1 <= step <= 1
    ensures 1 <= v <= 5 || roll < 0.1 ==> 1 <= MutatedSpeed(v, roll, step) <= 5
    ensures 1 <= v <= 5 ==> Abs(MutatedSpeed(v, roll, step) - v) <= 1
  {
  }

  /** A mutation's draw `(u - 0.5)*w` is at most w/2 either way. */
  lemma DrawSize(u: real, w: real)
    requires Unit(u) && w >= 0.0
    ensures RAbs((u - 0.5) * w) <= w / 2.0
  {
    if u >= 0.5 {
      assert (u - 0.5) * w <= 0.5 * w;
    } else {
      assert (0.5 - u) * w <= 0.5 * w;
    }
  }

  /** The traits `createChild` then `applyMutations` give a child of parents
      whose traits are in range: aggression and repro in [0, 1], speed in
      [1, 5], strength in [0, 100]. */
  lemma ChildTraitsInRange(agg1: real, agg2: real, spd1: int, spd2: int, str1: real, str2: real,
                           rep1: real, rep2: real, m: Mutation)
    requires 0.0 <= agg1 <= 1.0 && 0.0 <= agg2 <= 1.0 && 1 <= spd1 <= 5 && 1 <= spd2 <= 5
    requires 0.0 <= str1 <= 100.0 && 0.0 <= str2 <= 100.0 && 0.0 <= rep1 <= 1.0 && 0.0 <= rep2 <= 1.0
    requires -1 <= m.speedStep <= 1
    ensures 0.0 <= MutatedTrait((agg1 + agg2) / 2.0, m.aggressionRoll, (m.aggressionDraw - 0.5) * 0.2, 0.0, 1.0) <= 1.0
    ensures 1 <= MutatedSpeed(GoQuo(spd1 + spd2, 2), m.speedRoll, m.speedStep) <= 5
    ensures 0.0 <= MutatedTrait((str1 + str2) / 2.0, m.strengthRoll, (m.strengthDraw - 0.5) * 20.0, 0.0, 100.0) <= 100.0
    ensures 0.0 <= MutatedTrait((rep1 + rep2) / 2.0, m.reproRoll, (m.reproDraw - 0.5) * 0.1, 0.0, 1.0) <= 1.0
  {
    MutatedTraitBounds((agg1 + agg2) / 2.0, m.aggressionRoll, (m.aggressionDraw - 0.5) * 0.2, 0.0, 1.0);
    MutatedSpeedBounds(GoQuo(spd1 + spd2, 2), m.speedRoll, m.speedStep);
    MutatedTraitBounds((str1 + str2) / 2.0, m.strengthRoll, (m.strengthDraw - 0.5) * 20.0, 0.0, 100.0);
    MutatedTraitBounds((rep1 + rep2) / 2.0, m.reproRoll, (m.reproDraw - 0.5) * 0.1, 0.0, 1.0);
  }

  // ---------------------------------------------------------------------------
  // The agent.

  class Agent {
    const id: int
    var x: int
    var y: int
    var energy: real
    const sex: Sex
    var age: int
    var aggression: real
    var speed: int
    var strength: real
    var repro: real
    var experience: map<string, int>
    var parents: seq<int>
    var socialGroupID: int
    var fatigue: real
    var hunger: real
    var health: real
    var stress: real
    var qTable: map<StateKey, Row>
    var epsilon: real
    var alpha: real
    var gamma: real

    /** `NewAgent` followed by the overwrites of `addAgentAt` (and of
        `createChild`, which keeps the default energy of 100). */
    constructor (id: int, x: int, y: int, energy: real, sex: Sex, aggression: real, speed: int,
                 strength: real, repro: real)
      ensures this.id == id && this.x == x && this.y == y && this.energy == energy && this.sex == sex
      ensures this.aggression == aggression && this.speed == speed && this.strength == strength && this.repro == repro
      ensures age == 0 && experience == map[] && parents == [] && socialGroupID == -1
      ensures fatigue == 0.0 && hunger == 0.0 && health == 100.0 && stress == 0.0
      ensures qTable == map[] && epsilon == 0.1 && alpha == 0.1 && gamma == 0.9
    {
      this.id := id;
      this.x := x;
      this.y := y;
      this.energy := energy;
      this.sex := sex;
      age := 0;
      this.aggression := aggression;
      this.speed := speed;
      this.strength := strength;
      this.repro := repro;
      experience := map[];
      parents := [];
      socialGroupID := -1;
      fatigue := 0.0;
      hunger := 0.0;
      health := 100.0;
      stress := 0.0;
      qTable := map[];
      epsilon := 0.1;
      alpha := 0.1;
      gamma := 0.9;
    }

    /** One tick of wear, with the three uniform draws as parameters. */
    method UpdatePhysiology(u1: real, u2: real, u3: real)
      requires Unit(u1) && Unit(u2) && Unit(u3)
      modifies this`fatigue, this`hunger, this`stress, this`health, this`energy
      ensures fatigue == Accumulated(old(fatigue), 0.1 + u1 * 0.2)
      ensures hunger == Accumulated(old(hunger), 0.1 + u2 * 0.3)
      ensures stress == Accumulated(old(stress), 0.05 + u3 * 0.1)
      ensures health == Worn(old(health), fatigue + hunger + stress)
      ensures energy == old(energy) - 0.08
      ensures fatigue <= 100.0 && hunger <= 100.0 && stress <= 100.0 && health >= 0.0
      ensures old(fatigue) <= 100.0 ==> old(fatigue) <= fatigue
      ensures old(hunger) <= 100.0 ==> old(hunger) <= hunger
      ensures old(stress) <= 100.0 ==> old(stress) <= stress
      ensures old(health) >= 0.0 && fatigue + hunger + stress >= 0.0 ==> health <= old(health)
    {
      AccumulatedBounds(fatigue, 0.1 + u1 * 0.2);
      AccumulatedBounds(hunger, 0.1 + u2 * 0.3);
      AccumulatedBounds(stress, 0.05 + u3 * 0.1);
      fatigue := fatigue + 0.1 + u1 * 0.2;
      if fatigue > 100.0 {
        fatigue := 100.0;
      }
      hunger := hunger + 0.1 + u2 * 0.3;
      if hunger > 100.0 {
        hunger := 100.0;
      }
      stress := stress + 0.05 + u3 * 0.1;
      if stress > 100.0 {
        stress := 100.0;
      }
      var impact := (fatigue + hunger + stress) / 600.0;
      WornBounds(health, fatigue + hunger + stress);
      health := health - impact;
      if health < 0.0 {
        health := 0.0;
      }
      energy := energy - 0.08;
    }

    /** `adaptBehavior`. */
    method AdaptBehavior()
      modifies this`epsilon, this`alpha
      ensures epsilon == ExplorationFor(age, energy, old(epsilon))
      ensures alpha == if TotalCount(experience) > 10 then 0.15 else old(alpha)
    {
      if age < 50 {
        epsilon := 0.3;
      } else if age > 200 {
        epsilon := 0.05;
      }
      if energy < 30.0 {
        epsilon := 0.1;
      }
      var total := TotalExperience(experience);
      if total > 10 {
        alpha := 0.15;
      }
    }

    /** `calculateBehaviorModifier` on this agent; it changes nothing. */
    method CalculateBehaviorModifier() returns (r: real)
      ensures r == BehaviorModifier(age, energy, TotalCount(experience))
      ensures energy >= 0.0 ==> 0.8 * (energy / 100.0) <= r <= 1.8 * (energy / 100.0)
    {
      var total := TotalExperience(experience);
      var ageModifier := 1.0;
      if age < 50 {
        ageModifier := 0.8;
      } else if age > 200 {
        ageModifier := 1.2;
      }
      var experienceModifier := 1.0;
      if total > 10 {
        experienceModifier := 1.5;
      }
      r := ageModifier * (energy / 100.0) * experienceModifier;
      if energy >= 0.0 {
        BehaviorModifierBounds(age, energy, energy, total);
      }
    }

    /** `UpdateState`: the state key from the agent's own fields, the food
        direction and distance buckets, and its nearby agents; the behaviour
        adaptation runs as a side effect. */
    method UpdateState(foodDirection: int, foodDistance: int, neighbours: seq<Neighbour>) returns (k: StateKey)
      modifies this`epsilon, this`alpha
      ensures k.foodDirection == foodDirection && k.foodDistance == foodDistance
      ensures k.energyLevel == EnergyBucket(energy)
      ensures (k.threatLevel, k.nearbyAgents) == Assessment(x, y, strength, neighbours)
      ensures k.fatigueLevel == FatigueBucket(fatigue) && k.hungerLevel == HungerBucket(hunger)
      ensures k.stressLevel == StressBucket(stress)
      ensures epsilon == ExplorationFor(age, energy, old(epsilon))
      ensures alpha == if TotalCount(experience) > 10 then 0.15 else old(alpha)
    {
      var energyLevel := (energy / 100.0 * 4.0).Floor;
      if energyLevel > 4 {
        energyLevel := 4;
      }
      var fatigueLevel := (fatigue / 25.0).Floor;
      var hungerLevel := (hunger / 33.0).Floor;
      var stressLevel := (stress / 33.0).Floor;
      var threat, nearby := AssessEnvironment(x, y, strength, neighbours);
      AdaptBehavior();
      k := StateKey(foodDirection, foodDistance, energyLevel, threat, nearby, fatigueLevel, hungerLevel, stressLevel);
    }

    /** `adaptLearningParameters`. */
    method AdaptLearningParameters(reward: real)
      modifies this`epsilon, this`alpha
      ensures epsilon == DecayedEpsilon(old(epsilon), reward)
      ensures alpha == LearningRate(reward)
    {
      if reward > 0.5 {
        epsilon := epsilon * 0.995;
      } else {
        epsilon := epsilon * 0.999;
      }
      if epsilon < 0.01 {
        epsilon := 0.01;
      }
      if reward > 0.3 {
        alpha := 0.15;
      } else {
        alpha := 0.05;
      }
    }

    /** `QLearn`: create the rows of `state` and `nextState` and the entry of
        `action` when missing, update that one entry with the old learning
        rate, then adapt the rates to the reward. */
    method QLearn(state: StateKey, action: int, reward: real, nextState: StateKey)
      modifies this`qTable, this`epsilon, this`alpha
      ensures qTable.Keys == old(qTable).Keys + {state, nextState}
      ensures forall s :: s in old(qTable) && s != state ==> qTable[s] == old(qTable)[s]
      ensures nextState != state && nextState !in old(qTable) ==> qTable[nextState] == map[]
      ensures qTable[state] == RowOf(old(qTable), state)[action :=
        BlendUpdate(Get(RowOf(old(qTable), state), action), old(alpha), gamma, reward,
                    MaxOr0(RowOf(old(qTable), nextState)))]
      ensures epsilon == DecayedEpsilon(old(epsilon), reward) && alpha == LearningRate(reward)
    {
      var row := RowOf(qTable, state);
      var current := Get(row, action);
      // The row Go takes the maximum of, after the lazy creations.
      var nextRow := RowOf(qTable, nextState);
      if nextState == state && action !in row {
        nextRow := row[action := 0.0];
        MaxOr0WithZero(row, action);
      }
      var maxNext := MaxValueOrZero(nextRow);
      assert maxNext == MaxOr0(RowOf(qTable, nextState));
      var newQ := current * (1.0 - alpha) + alpha * (reward + gamma * maxNext);
      assert newQ == BlendUpdate(Get(RowOf(qTable, state), action), alpha, gamma, reward, maxNext);
      var table := qTable;
      if nextState !in table {
        table := table[nextState := map[]];
      }
      var learned := table[state := row[action := newQ]];
      assert learned.Keys == qTable.Keys + {state, nextState};
      assert forall s :: s in qTable && s != state ==> learned[s] == qTable[s];
      qTable := learned;
      AdaptLearningParameters(reward);
    }

    /** `ChooseAction`: with probability epsilon the random action, otherwise
        the first action in the state's row whose value beats every earlier
        one, starting from action 0 and `-math.MaxFloat64`. */
    method ChooseAction(state: StateKey, roll: real, randomAction: int) returns (act: int)
      requires 0 <= randomAction < 9
      ensures roll < epsilon ==> act == randomAction
      ensures roll >= epsilon && state !in qTable ==> act == 0
      ensures roll >= epsilon && state in qTable ==> GreedyFrom(qTable[state], 0, -SimV1.MaxFloat64, act)
      ensures roll >= epsilon && state in qTable && qTable[state] != map[] &&
              (forall k :: k in qTable[state] ==> qTable[state][k] > -SimV1.MaxFloat64) ==>
                act in qTable[state] && forall k :: k in qTable[state] ==> qTable[state][k] <= qTable[state][act]
    {
      if roll < epsilon {
        return randomAction;
      }
      act := 0;
      if state in qTable {
        act := ArgMaxFrom(qTable[state], 0, -SimV1.MaxFloat64);
        if qTable[state] != map[] && forall k :: k in qTable[state] ==> qTable[state][k] > -SimV1.MaxFloat64 {
          GreedyBelowAll(qTable[state], 0, -SimV1.MaxFloat64, act);
        }
      }
    }

    /** `shareExperience`: each table receives, discounted by 0.7, what it lacks
        of the other. The second pass reads the first pass's result, which
        changes nothing: each table ends as it would after filling from the
        other's original. */
    method ShareExperience(other: Agent)
      requires other != this
      modifies this`qTable, other`qTable
      ensures other.qTable == FillTable(old(other.qTable), old(qTable))
      ensures qTable == FillTable(old(qTable), old(other.qTable))
    {
      ghost var p, q := qTable, other.qTable;
      other.qTable := FillTableFrom(other.qTable, qTable);
      qTable := FillTableFrom(qTable, other.qTable);
      FillAfterFill(p, q);
    }

    /** `applyMutations`, with its draws as parameters. */
    method ApplyMutations(m: Mutation)
      modifies this`aggression, this`speed, this`strength, this`repro
      ensures aggression == MutatedTrait(old(aggression), m.aggressionRoll, (m.aggressionDraw - 0.5) * 0.2, 0.0, 1.0)
      ensures speed == MutatedSpeed(old(speed), m.speedRoll, m.speedStep)
      ensures strength == MutatedTrait(old(strength), m.strengthRoll, (m.strengthDraw - 0.5) * 20.0, 0.0, 100.0)
      ensures repro == MutatedTrait(old(repro), m.reproRoll, (m.reproDraw - 0.5) * 0.1, 0.0, 1.0)
    {
      if m.aggressionRoll < 0.1 {
        aggression := aggression + (m.aggressionDraw - 0.5) * 0.2;
        if aggression < 0.0 {
          aggression := 0.0;
        }
        if aggression > 1.0 {
          aggression := 1.0;
        }
      }
      if m.speedRoll < 0.1 {
        speed := speed + m.speedStep;
        if speed < 1 {
          speed := 1;
        }
        if speed > 5 {
          speed := 5;
        }
      }
      if m.strengthRoll < 0.1 {
        strength := strength + (m.strengthDraw - 0.5) * 20.0;
        if strength < 0.0 {
          strength := 0.0;
        }
        if strength > 100.0 {
          strength := 100.0;
        }
      }
      if m.reproRoll < 0.1 {
        repro := repro + (m.reproDraw - 0.5) * 0.1;
        if repro < 0.0 {
          repro := 0.0;
        }
        if repro > 1.0 {
          repro := 1.0;
        }
      }
    }

    /** A parent's side of a birth. */
    method PayForBirth()
      modifies this`energy, this`experience
      ensures energy == old(energy) - 10.0
      ensures experience == Inc(old(experience), "repro")
    {
      experience := Inc(experience, "repro");
      energy := energy - 10.0;
    }
  }

  // ---------------------------------------------------------------------------
  // The world.

  /** `dist < 20` of `getNearbyAgents`, compared on squares. */
  predicate Nearby(x1: int, y1: int, x2: int, y2: int)
  {
    (x2 - x1) * (x2 - x1) + (y2 - y1) * (y2 - y1) < 400
  }

  /** The gate of `tryReproduce`. */
  ghost predicate Fertile(a: Agent)
    reads a
  {
    a.energy >= 50.0 && a.age >= 30 && a.repro >= 0.1
  }

  class Sim {
    const W: int
    const H: int
    var agents: map<int, Agent>
    var foods: map<int, SimV1.Food>
    var nextID: int

    /** Ids match their keys and were all issued before `nextID`; every food
        sits under the key of its own position. */
    ghost predicate Valid()
      reads this
    {
      && W > 0 && H > 0 && nextID >= 0
      && (forall id :: id in agents ==> agents[id].id == id && 0 <= id < nextID)
      && (forall k :: k in foods ==> k == FoodKey(foods[k].x, foods[k].y, H))
    }

    ghost predicate Live(a: Agent)
      reads this
    {
      a.id in agents && agents[a.id] == a
    }

    /** A mate `tryReproduce` accepts for `a`: a nearby other agent of the
        opposite sex with energy above 40, age above 20 and repro above 0.05. */
    ghost predicate Suitable(a: Agent, other: Agent)
      reads this, a, other
    {
      && Live(other) && other.id != a.id && Nearby(a.x, a.y, other.x, other.y)
      && other.sex != a.sex && other.energy > 40.0 && other.age > 20 && other.repro > 0.05
    }

    ghost predicate NoneSuitable(a: Agent)
      reads this, a, agents.Values
    {
      forall id :: id in agents ==> !Suitable(a, agents[id])
    }

    /** NewSim without its two random agents. `rand.Intn(W)` and `rand.Intn(H)`
        in `addRandomAgent` need a non-empty grid. */
    constructor (w: int, h: int)
      requires w > 0 && h > 0
      ensures Valid()
      ensures W == w && H == h && agents == map[] && foods == map[] && nextID == 0
    {
      W := w;
      H := h;
      agents := map[];
      foods := map[];
      nextID := 0;
    }

    /** `addAgentAt`: the new agent takes `nextID`, which then moves on, so the
        id is fresh and larger than every id before it. No bounds check and no
        clamping of the traits. */
    method AddAgentAt(x: int, y: int, energy: real, sex: Sex, aggression: real, speed: int,
                      strength: real, repro: real) returns (id: int)
      requires Valid()
      modifies this`agents, this`nextID
      ensures Valid()
      ensures id == old(nextID) && nextID == old(nextID) + 1
      ensures id !in old(agents) && forall j :: j in old(agents) ==> j < id
      ensures agents.Keys == old(agents).Keys + {id}
      ensures forall j :: j in old(agents) ==> agents[j] == old(agents)[j]
      ensures fresh(agents[id])
      ensures agents[id].x == x && agents[id].y == y && agents[id].energy == energy && agents[id].sex == sex
      ensures agents[id].aggression == aggression && agents[id].speed == speed
      ensures agents[id].strength == strength && agents[id].repro == repro && agents[id].parents == []
      ensures agents[id].id == id && agents[id].age == 0 && agents[id].experience == map[]
      ensures agents[id].socialGroupID == -1
      ensures agents[id].fatigue == 0.0 && agents[id].hunger == 0.0 && agents[id].stress == 0.0
      ensures agents[id].health == 100.0
      ensures agents[id].qTable == map[]
      ensures agents[id].epsilon == 0.1 && agents[id].alpha == 0.1 && agents[id].gamma == 0.9
    {
      id := nextID;
      nextID := nextID + 1;
      var a := new Agent(id, x, y, energy, sex, aggression, speed, strength, repro);
      agents := agents[id := a];
    }

    /** `AddFoodAt`: food is stored under `x*H + y` unless that key is taken;
        nothing else is checked. */
    method AddFoodAt(x: int, y: int, energy: real)
      requires Valid()
      modifies this`foods
      ensures Valid()
      ensures FoodKey(x, y, H) in old(foods) ==> foods == old(foods)
      ensures FoodKey(x, y, H) !in old(foods) ==> foods == old(foods)[FoodKey(x, y, H) := SimV1.Food(x, y, energy)]
    {
      var key := x * H + y;
      if key !in foods {
        foods := foods[key := SimV1.Food(x, y, energy)];
      }
    }

    /** `agentAt`: some agent stands on (x, y). */
    ghost predicate Occupied(x: int, y: int)
      reads this`agents, agents.Values`x, agents.Values`y
    {
      exists id :: id in agents && agents[id].x == x && agents[id].y == y
    }

    /** `agentAt`: walk the agents until one stands on (x, y). */
    method AgentAt(x: int, y: int) returns (b: bool)
      ensures b <==> Occupied(x, y)
    {
      b := false;
      var rest := agents.Keys;
      while rest != {} && !b
        invariant rest <= agents.Keys
        invariant b ==> Occupied(x, y)
        invariant !b ==> forall id :: id in agents && id !in rest ==> !(agents[id].x == x && agents[id].y == y)
        decreases rest
      {
        ghost var some := Pick(rest);  // the witness the `:|` below needs (see Basics.Pick)
        var id :| id in rest;
        if agents[id].x == x && agents[id].y == y {
          b := true;
        }
        rest := rest - {id};
      }
    }

    /** One food-spawn attempt of Tick on the foods `f`, always on in this
        engine: a food of energy `12 + u*12` on the drawn cell when the roll is
        below 0.04 and the cell holds neither food nor an agent. */
    ghost function SpawnOne(f: map<int, SimV1.Food>, d: SimV1.FoodDraw): map<int, SimV1.Food>
      reads this`agents, agents.Values`x, agents.Values`y
    {
      if d.roll < 0.04 && FoodKey(d.x, d.y, H) !in f && !Occupied(d.x, d.y)
      then f[FoodKey(d.x, d.y, H) := SimV1.Food(d.x, d.y, 12.0 + d.u * 12.0)]
      else f
    }

    /** The foods after the attempts `draws`, taken in order. */
    ghost function Spawned(f: map<int, SimV1.Food>, draws: seq<SimV1.FoodDraw>): map<int, SimV1.Food>
      reads this`agents, agents.Values`x, agents.Values`y
      decreases |draws|
    {
      if draws == [] then f else SpawnOne(Spawned(f, draws[..|draws| - 1]), draws[|draws| - 1])
    }

    /** Spawning only adds food: existing food is untouched, and each new food
        has energy in [12, 24), lies on an agent-free grid cell under that
        cell's key, and comes from a draw for that cell whose roll was below 0.04. */
    lemma {:induction false} SpawnedSound(f: map<int, SimV1.Food>, draws: seq<SimV1.FoodDraw>)
      requires forall i :: 0 <= i < |draws| ==> InBounds(draws[i].x, draws[i].y, W, H) && Unit(draws[i].u)
      ensures forall k :: k in f ==> k in Spawned(f, draws) && Spawned(f, draws)[k] == f[k]
      ensures forall k :: k in Spawned(f, draws) && k !in f ==>
        var g := Spawned(f, draws)[k];
        && 12.0 <= g.energy < 24.0 && InBounds(g.x, g.y, W, H) && k == FoodKey(g.x, g.y, H)
        && !Occupied(g.x, g.y)
        && exists i :: 0 <= i < |draws| && draws[i].roll < 0.04 && draws[i].x == g.x && draws[i].y == g.y
      decreases |draws|
    {
      if draws != [] {
        var init := draws[..|draws| - 1];
        SpawnedSound(f, init);
        assert forall i :: 0 <= i < |init| ==> init[i] == draws[i];
      }
    }

    /** Every attempt that wins its roll on an agent-free cell leaves food on
        that cell's key. */
    lemma {:induction false} SpawnedCovers(f: map<int, SimV1.Food>, draws: seq<SimV1.FoodDraw>, i: int)
      requires 0 <= i < |draws| && draws[i].roll < 0.04 && !Occupied(draws[i].x, draws[i].y)
      ensures FoodKey(draws[i].x, draws[i].y, H) in Spawned(f, draws)
      decreases |draws|
    {
      var init := draws[..|draws| - 1];
      if i < |draws| - 1 {
        assert init[i] == draws[i];
        SpawnedCovers(f, init, i);
      }
    }

    /** The food spawn at the start of Tick: `(W*H)/50` attempts in order (see
        `Spawned`, `SpawnedSound` and `SpawnedCovers`). */
    method SpawnFood(draws: seq<SimV1.FoodDraw>)
      requires Valid()
      requires |draws| == (W * H) / 50
      requires forall i :: 0 <= i < |draws| ==> InBounds(draws[i].x, draws[i].y, W, H) && Unit(draws[i].u)
      modifies this`foods
      ensures Valid()
      ensures foods == Spawned(old(foods), draws)
    {
      ghost var f0 := foods;
      var attempts := (W * H) / 50;
      for i := 0 to attempts
        invariant Valid()
        invariant foods == Spawned(f0, draws[..i])
      {
        var d := draws[i];
        assert draws[..i + 1][..i] == draws[..i] && draws[..i + 1][i] == d;
        assert Spawned(f0, draws[..i + 1]) == SpawnOne(Spawned(f0, draws[..i]), d);
        if d.roll < 0.04 {
          var key := d.x * H + d.y;
          var occupied := AgentAt(d.x, d.y);
          if key !in foods && !occupied {
            foods := foods[key := SimV1.Food(d.x, d.y, 12.0 + d.u * 12.0)];
          }
        }
      }
      assert draws[..attempts] == draws;
    }

    // -------------------------------------------------------------------------
    // The per-agent steps of Tick.

    /** Ageing, wear, and removal once energy is at most 0 (no death counters). */
    method Metabolize(a: Agent, u1: real, u2: real, u3: real) returns (died: bool)
      requires Valid() && Live(a)
      requires Unit(u1) && Unit(u2) && Unit(u3)
      modifies a`age, a`fatigue, a`hunger, a`stress, a`health, a`energy, this`agents
      ensures Valid()
      ensures a.age == old(a.age) + 1
      ensures a.fatigue == Accumulated(old(a.fatigue), 0.1 + u1 * 0.2)
      ensures a.hunger == Accumulated(old(a.hunger), 0.1 + u2 * 0.3)
      ensures a.stress == Accumulated(old(a.stress), 0.05 + u3 * 0.1)
      ensures a.health == Worn(old(a.health), a.fatigue + a.hunger + a.stress)
      ensures a.energy == old(a.energy) - 0.08
      ensures died <==> a.energy <= 0.0
      ensures agents == if died then old(agents) - {a.id} else old(agents)
    {
      a.age := a.age + 1;
      a.UpdatePhysiology(u1, u2, u3);
      died := a.energy <= 0.0;
      if died {
        agents := agents - {a.id};
      }
    }

    /** The move of Tick: decode the action and clamp the target to the grid. */
    method MoveAgent(a: Agent, act: int)
      requires Valid() && Live(a)
      modifies a`x, a`y
      ensures (a.x, a.y) == Step(old(a.x), old(a.y), act, W, H)
      ensures InBounds(a.x, a.y, W, H)
    {
      var dx := GoRem(act, 3) - 1;
      var dy := GoQuo(act, 3) - 1;
      a.x := Clamp(a.x + dx, 0, W - 1);
      a.y := Clamp(a.y + dy, 0, H - 1);
    }

    /** Feeding on arrival: the food under the agent's key is eaten and hunger
        reset; unlike the other engines no `ate` counter is kept. */
    method FeedOnArrival(a: Agent) returns (ate: bool)
      requires Valid() && Live(a)
      modifies a`energy, a`hunger, this`foods
      ensures Valid()
      ensures ate <==> FoodKey(a.x, a.y, H) in old(foods)
      ensures ate ==>
        && a.energy == old(a.energy) + old(foods)[FoodKey(a.x, a.y, H)].energy
        && a.hunger == 0.0
        && foods == old(foods) - {FoodKey(a.x, a.y, H)}
      ensures !ate ==> a.energy == old(a.energy) && a.hunger == old(a.hunger) && foods == old(foods)
    {
      var key := a.x * H + a.y;
      ate := key in foods;
      if ate {
        a.energy := a.energy + foods[key].energy;
        foods := foods - {key};
        a.hunger := 0.0;
      }
    }

    // -------------------------------------------------------------------------
    // Reproduction. Go takes the first suitable agent in the nearby list, whose
    // order follows the map; the model takes that agent as a parameter, with
    // `found` false exactly when no agent is suitable.

    /** `createChild`: the next id, the first parent's position and social
        group, the parents' mean traits (speed by integer division), then the
        mutations; its parents are recorded in order. */
    method CreateChild(p1: Agent, p2: Agent, childSex: Sex, m: Mutation) returns (child: Agent)
      requires Valid()
      modifies this`nextID
      ensures Valid()
      ensures fresh(child) && child.id == old(nextID) && nextID == old(nextID) + 1
      ensures child.x == p1.x && child.y == p1.y && child.energy == 100.0 && child.sex == childSex
      ensures child.aggression == MutatedTrait((p1.aggression + p2.aggression) / 2.0, m.aggressionRoll,
                                              (m.aggressionDraw - 0.5) * 0.2, 0.0, 1.0)
      ensures child.speed == MutatedSpeed(GoQuo(p1.speed + p2.speed, 2), m.speedRoll, m.speedStep)
      ensures child.strength == MutatedTrait((p1.strength + p2.strength) / 2.0, m.strengthRoll,
                                            (m.strengthDraw - 0.5) * 20.0, 0.0, 100.0)
      ensures child.repro == MutatedTrait((p1.repro + p2.repro) / 2.0, m.reproRoll,
                                         (m.reproDraw - 0.5) * 0.1, 0.0, 1.0)
      ensures child.socialGroupID == p1.socialGroupID && child.parents == [p1.id, p2.id]
      ensures child.age == 0 && child.experience == map[] && child.qTable == map[]
      ensures child.fatigue == 0.0 && child.hunger == 0.0 && child.stress == 0.0 && child.health == 100.0
      ensures child.epsilon == 0.1 && child.alpha == 0.1 && child.gamma == 0.9
    {
      var id := nextID;
      nextID := nextID + 1;
      var speed := p1.speed + p2.speed;
      child := new Agent(id, p1.x, p1.y, 100.0, childSex, (p1.aggression + p2.aggression) / 2.0,
                         GoQuo(speed, 2), (p1.strength + p2.strength) / 2.0, (p1.repro + p2.repro) / 2.0);
      assert child != p1 && child != p2;
      child.socialGroupID := p1.socialGroupID;
      child.ApplyMutations(m);
      child.parents := [p1.id, p2.id];
    }

    /** Store a newborn under its fresh id. */
    method Enroll(child: Agent)
      requires Valid() && 0 <= child.id == nextID - 1 && child.id !in agents
      modifies this`agents
      ensures Valid()
      ensures agents == old(agents)[child.id := child]
    {
      agents := agents[child.id := child];
    }

    /** `tryReproduce`: nothing happens unless `a` is fertile, a suitable mate
        exists and the roll beats the parents' mean repro; then the child is
        stored and each parent pays 10 energy and counts the birth. */
    method TryReproduce(a: Agent, partner: Agent, found: bool, roll: real, childSex: Sex, m: Mutation)
      returns (child: Agent?)
      requires Valid() && Live(a)
      requires found ==> Suitable(a, partner)
      requires !found ==> NoneSuitable(a)
      modifies this`agents, this`nextID, a`energy, a`experience, partner`energy, partner`experience
      ensures Valid()
      ensures child != null <==> old(Fertile(a)) && found && roll < (a.repro + partner.repro) / 2.0
      ensures child == null ==>
        && agents == old(agents) && nextID == old(nextID)
        && a.energy == old(a.energy) && a.experience == old(a.experience)
        && partner.energy == old(partner.energy) && partner.experience == old(partner.experience)
      ensures child != null ==>
        && fresh(child) && child.id == old(nextID) && nextID == old(nextID) + 1
        && agents == old(agents)[child.id := child]
        && child.parents == [a.id, partner.id] && child.x == a.x && child.y == a.y
        && child.energy == 100.0 && child.sex == childSex && child.socialGroupID == a.socialGroupID
        && child.age == 0 && child.experience == map[] && child.qTable == map[]
        && child.fatigue == 0.0 && child.hunger == 0.0 && child.stress == 0.0 && child.health == 100.0
        && child.epsilon == 0.1 && child.alpha == 0.1 && child.gamma == 0.9
        && child.aggression == MutatedTrait((a.aggression + partner.aggression) / 2.0, m.aggressionRoll,
                                            (m.aggressionDraw - 0.5) * 0.2, 0.0, 1.0)
        && child.speed == MutatedSpeed(GoQuo(a.speed + partner.speed, 2), m.speedRoll, m.speedStep)
        && child.strength == MutatedTrait((a.strength + partner.strength) / 2.0, m.strengthRoll,
                                          (m.strengthDraw - 0.5) * 20.0, 0.0, 100.0)
        && child.repro == MutatedTrait((a.repro + partner.repro) / 2.0, m.reproRoll,
                                       (m.reproDraw - 0.5) * 0.1, 0.0, 1.0)
      ensures child != null ==>
        && a.energy == old(a.energy) - 10.0 && partner.energy == old(partner.energy) - 10.0
        && a.experience == Inc(old(a.experience), "repro")
        && partner.experience == Inc(old(partner.experience), "repro")
    {
      child := null;
      if a.energy < 50.0 || a.age < 30 || a.repro < 0.1 {
        return;
      }
      if !found {
        return;
      }
      if roll < (a.repro + partner.repro) / 2.0 {
        var c := CreateChild(a, partner, childSex, m);
        Enroll(c);
        a.PayForBirth();
        partner.PayForBirth();
        child := c;
      }
    }
  }
}
