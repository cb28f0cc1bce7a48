/** The first engine variant (sim/sim.go): a W x H grid with agents keyed by an
    increasing id, food keyed by `x*H + y`, a lineage map, birth and death
    counters and the capped event log. Agents are mutable records shared by
    reference in Go, so they are objects here; the world is one `Sim` object.
    What a step does to one agent is given by a function on `AgentView`, the
    agent's fields as a value, and the methods are proved against those
    functions. The actor-critic policy that picks each agent's action is not
    part of this model: the chosen action is a parameter of `MoveAgent`. */
module SimV1 {
  import opened Basics
  import opened Events

  datatype Food = Food(x: int, y: int, energy: real)

  /** The draws of one food-spawn attempt of Tick: the spawn roll, the cell
      (`rand.Intn(W)`, `rand.Intn(H)`) and the uniform draw sizing the food. */
  datatype FoodDraw = FoodDraw(roll: real, x: int, y: int, u: real)

  /** The fields of an agent, as a value. */
  datatype AgentView = AgentView(
    id: int, x: int, y: int, energy: real, sex: Sex, age: int, aggression: real,
    speed: int, strength: real, repro: real, experience: map<string, int>,
    parents: seq<int>, hunger: int)

  // ---------------------------------------------------------------------------
  // What each step does to one agent.

  /** The agent AddAgentAt creates: its traits clamped, repro boosted by half. */
  function Newcomer(id: int, x: int, y: int, energy: real, sex: Sex, aggression: real,
                    speed: int, strength: real, repro: real): (v: AgentView)
    ensures v.id == id && v.x == x && v.y == y && v.energy == energy && v.sex == sex
    ensures v.age == 0 && v.hunger == 0 && v.experience == map[] && v.parents == []
    ensures 0.0 <= v.aggression <= 1.0 && (0.0 <= aggression <= 1.0 ==> v.aggression == aggression)
    ensures 1 <= v.speed <= 5 && (1 <= speed <= 5 ==> v.speed == speed)
    ensures 0.0 <= v.repro <= 1.0 && (0.0 <= repro * 1.5 <= 1.0 ==> v.repro == repro * 1.5)
    ensures repro >= 2.0 / 3.0 ==> v.repro == 1.0
  {
    AgentView(id, x, y, energy, sex, 0, ClampF(aggression, 0.0, 1.0), Clamp(speed, 1, 5),
              strength, ClampF(repro * 1.5, 0.0, 1.0), map[], [], 0)
  }

  /** One tick of metabolism: a year older, one step hungrier, 0.08 energy
      spent and 0.15 more once hunger exceeds 100. */
  function Metabolized(v: AgentView): AgentView
  {
    var hunger := v.hunger + 1;
    v.(age := v.age + 1, hunger := hunger,
       energy := v.energy - 0.08 - (if hunger > 100 then 0.15 else 0.0))
  }

  lemma MetabolismCost(v: AgentView)
    ensures var m := Metabolized(v);
      && m.age == v.age + 1 && m.hunger == v.hunger + 1
      && (v.hunger < 100 ==> m.energy == v.energy - 0.08)
      && (v.hunger >= 100 ==> m.energy == v.energy - 0.23)
      && m.energy < v.energy
      && m.(energy := v.energy, age := v.age, hunger := v.hunger) == v
  {
  }

  /** The agent after taking `act` on a w x h grid. */
  function Moved(v: AgentView, act: int, w: int, h: int): AgentView
    requires w > 0 && h > 0
  {
    var p := Step(v.x, v.y, act, w, h);
    v.(x := p.0, y := p.1)
  }

  lemma MoveStaysOnGrid(v: AgentView, act: int, w: int, h: int)
    requires w > 0 && h > 0
    ensures var m := Moved(v, act, w, h);
      && InBounds(m.x, m.y, w, h)
      && (IsAction(act) && InBounds(v.x, v.y, w, h) ==> Abs(m.x - v.x) <= 1 && Abs(m.y - v.y) <= 1)
      && m.(x := v.x, y := v.y) == v
  {
  }

  /** The agent after eating food `f`: its energy gained, hunger reset, one more "ate". */
  function Fed(v: AgentView, f: Food): AgentView
  {
    v.(energy := v.energy + f.energy, experience := Inc(v.experience, "ate"), hunger := 0)
  }

  lemma FeedingGains(v: AgentView, f: Food)
    ensures var e := Fed(v, f);
      && e.energy == v.energy + f.energy && e.hunger == 0
      && Count(e.experience, "ate") == Count(v.experience, "ate") + 1
      && (forall k :: k != "ate" ==> Count(e.experience, k) == Count(v.experience, k))
      && e.(energy := v.energy, experience := v.experience, hunger := v.hunger) == v
  {
  }

  /** The damage `2 + u*3` for a uniform draw u. */
  function Damage(u: real): (d: real)
    ensures 0.0 <= u < 1.0 ==> 2.0 <= d < 5.0
  {
    2.0 + u * 3.0
  }

  /** The attacker after dealing `damage`: a tenth of it gained, one more
      "attacks", and one more "kills" when the defender died. */
  function Striker(v: AgentView, damage: real, killed: bool): AgentView
  {
    var exp := Inc(v.experience, "attacks");
    v.(energy := v.energy + damage * 0.1, experience := if killed then Inc(exp, "kills") else exp)
  }

  lemma StrikerCounts(v: AgentView, damage: real, killed: bool)
    ensures var s := Striker(v, damage, killed);
      && s.energy == v.energy + damage / 10.0
      && Count(s.experience, "attacks") == Count(v.experience, "attacks") + 1
      && Count(s.experience, "kills") == Count(v.experience, "kills") + (if killed then 1 else 0)
  {
  }

  /** The merge weight of one side: its share of the combined energy. */
  function MergeWeight(e: real, combined: real): real
    requires combined + 0.000000001 != 0.0
  {
    e / (combined + 0.000000001)
  }

  /** The survivor of a merge of `a` with `b`: 85% of the combined energy,
      energy-weighted traits, the faster speed, summed counters, `b` as a parent. */
  function Merged(a: AgentView, b: AgentView): AgentView
    requires a.energy + b.energy > 40.0
  {
    var combined := a.energy + b.energy;
    var wa := MergeWeight(a.energy, combined);
    var wb := MergeWeight(b.energy, combined);
    a.(energy := combined * 0.85,
       aggression := ClampF(a.aggression * wa + b.aggression * wb, 0.0, 1.0),
       strength := a.strength * wa + b.strength * wb + 0.5,
       repro := ClampF(a.repro * wa + b.repro * wb, 0.0, 1.0),
       speed := Clamp(Max(a.speed, b.speed), 1, 5),
       experience := SumCounts(a.experience, b.experience),
       parents := a.parents + [b.id])
  }

  lemma MergedSurvivor(a: AgentView, b: AgentView, k: string)
    requires a.energy + b.energy > 40.0
    ensures var m := Merged(a, b);
      && m.energy == (a.energy + b.energy) * 0.85 && 34.0 < m.energy < a.energy + b.energy
      && 0.0 <= m.aggression <= 1.0 && 0.0 <= m.repro <= 1.0 && 1 <= m.speed <= 5
      && (1 <= a.speed <= 5 && 1 <= b.speed <= 5 ==> m.speed == Max(a.speed, b.speed))
      && Count(m.experience, k) == Count(a.experience, k) + Count(b.experience, k)
      && m.parents == a.parents + [b.id]
      && m.id == a.id && m.x == a.x && m.y == a.y && m.sex == a.sex && m.age == a.age && m.hunger == a.hunger
  {
    SumCountsEntries(a.experience, b.experience, k);
  }

  /** The child of `a` and `b`: on a's cell, a quarter of both energies, both as
      parents, traits averaged with the Gaussian jitters given. */
  function Child(a: AgentView, b: AgentView, id: int, sex: Sex,
                 aggJitter: real, speedJitter: int, reproJitter: real, strengthJitter: real): AgentView
  {
    AgentView(id, a.x, a.y, (a.energy + b.energy) / 4.0, sex, 0,
              ClampF((a.aggression + b.aggression) / 2.0 + aggJitter, 0.0, 1.0),
              Clamp(GoQuo(a.speed + b.speed, 2) + speedJitter, 1, 3),
              (a.strength + b.strength) / 2.0 + strengthJitter,
              ClampF((a.repro + b.repro) / 2.0 + reproJitter, 0.0, 1.0),
              map[], [a.id, b.id], 0)
  }

  lemma ChildTraits(a: AgentView, b: AgentView, id: int, sex: Sex,
                    aggJitter: real, speedJitter: int, reproJitter: real, strengthJitter: real)
    requires a.energy > 15.0 && b.energy > 15.0
    ensures var c := Child(a, b, id, sex, aggJitter, speedJitter, reproJitter, strengthJitter);
      && c.energy > 7.5 && c.energy < a.energy + b.energy
      && c.id == id && c.x == a.x && c.y == a.y && c.age == 0 && c.parents == [a.id, b.id]
      && 0.0 <= c.aggression <= 1.0 && 0.0 <= c.repro <= 1.0 && 1 <= c.speed <= 3
      && (1 <= a.speed <= 3 && 1 <= b.speed <= 3 && speedJitter == 0 ==>
            Min(a.speed, b.speed) <= c.speed <= Max(a.speed, b.speed))
  {
  }

  /** A parent after a birth: 85% of its energy, one more "repro". */
  function Parent(v: AgentView): AgentView
  {
    v.(energy := v.energy * 0.85, experience := Inc(v.experience, "repro"))
  }

  lemma ParentPays(v: AgentView)
    requires v.energy > 15.0
    ensures var p := Parent(v);
      && 12.75 < p.energy < v.energy
      && Count(p.experience, "repro") == Count(v.experience, "repro") + 1
  {
  }

  class Agent {
    const id: int
    var x: int
    var y: int
    var energy: real
    const sex: Sex
    var age: int
    var aggression: real
    var speed: int
    var strength: real
    var repro: real
    var experience: map<string, int>
    var parents: seq<int>
    var hunger: int

    function View(): AgentView
      reads this
    {
      AgentView(id, x, y, energy, sex, age, aggression, speed, strength, repro, experience, parents, hunger)
    }

    /** A new agent with the fields of `v`. */
    constructor (v: AgentView)
      ensures View() == v
    {
      id := v.id;
      x := v.x;
      y := v.y;
      energy := v.energy;
      sex := v.sex;
      age := v.age;
      aggression := v.aggression;
      speed := v.speed;
      strength := v.strength;
      repro := v.repro;
      experience := v.experience;
      parents := v.parents;
      hunger := v.hunger;
    }

    method Metabolize()
      modifies this`age, this`energy, this`hunger
      ensures View() == Metabolized(old(View()))
    {
      age := age + 1;
      energy := energy - 0.08;
      hunger := hunger + 1;
      if hunger > 100 {
        energy := energy - 0.15;
      }
    }

    method Move(act: int, w: int, h: int)
      requires w > 0 && h > 0
      modifies this`x, this`y
      ensures View() == Moved(old(View()), act, w, h)
    {
      var dx := GoRem(act, 3) - 1;
      var dy := GoQuo(act, 3) - 1;
      x := Clamp(x + dx, 0, w - 1);
      y := Clamp(y + dy, 0, h - 1);
    }

    method Eat(f: Food)
      modifies this`energy, this`experience, this`hunger
      ensures View() == Fed(old(View()), f)
    {
      energy := energy + f.energy;
      experience := Inc(experience, "ate");
      hunger := 0;
    }

    /** The attacker's side of a hit; the kill counter is bumped when the
        defender died of it. */
    method Strike(damage: real, killed: bool)
      modifies this`energy, this`experience
      ensures View() == Striker(old(View()), damage, killed)
    {
      experience := Inc(experience, "attacks");
      energy := energy + damage * 0.1;
      if killed {
        experience := Inc(experience, "kills");
      }
    }

    /** The defender's side of a hit. */
    method Suffer(damage: real)
      modifies this`energy
      ensures View() == old(View()).(energy := old(energy) - damage)
    {
      energy := energy - damage;
    }

    method PayForBirth()
      modifies this`energy, this`experience
      ensures View() == Parent(old(View()))
    {
      energy := energy * 0.85;
      experience := Inc(experience, "repro");
    }

    /** The trait blending of `tryMerge`, with `other` absorbed into this agent. */
    method Absorb(other: Agent)
      requires other != this && energy + other.energy > 40.0
      modifies this`energy, this`aggression, this`strength, this`repro, this`speed, this`experience, this`parents
      ensures View() == Merged(old(View()), other.View())
    {
      var m := Merged(View(), other.View());
      energy := m.energy;
      aggression := m.aggression;
      strength := m.strength;
      repro := m.repro;
      speed := m.speed;
      experience := AddCounts(experience, other.experience);
      parents := parents + [other.id];
    }
  }

  /** Manhattan distance between two agents, the adjacency test of every interaction. */
  function AgentDistance(a: Agent, b: Agent): nat
    reads a, b
  {
    Manhattan(b.x, b.y, a.x, a.y)
  }

  /** `math.Abs(f.X - x) + math.Abs(f.Y - y)` as a float64. */
  function FoodDistance(f: Food, x: int, y: int): real
  {
    Manhattan(f.x, f.y, x, y) as real
  }

  /** `math.MaxFloat64`, the start value of the nearest-food search. */
  const MaxFloat64: real := 179769313486231570814527423731704356798070567525844996598917476803157260780028538760589558632766878171540458953514382464234321326889464182768467546703537516986049910576551282076245490090389328944075868508455133942304583236903222948165808559332123348274797826204144723168738177180919299881250404026184124858368.0

  /** The attack roll: aggression and strength difference plus a Gaussian draw. */
  function AttackChance(a: Agent, o: Agent, gauss: real): real
    reads a, o
  {
    (a.aggression - o.aggression) + (a.strength - o.strength) / 10.0 + gauss * 0.2
  }

  // ---------------------------------------------------------------------------
  // The registry invariant, in parts over values.

  /** Every food lies on the grid, under the key of its own cell. */
  ghost predicate FoodsOnGrid(foods: map<int, Food>, w: int, h: int)
  {
    forall k :: k in foods ==> InBounds(foods[k].x, foods[k].y, w, h) && k == FoodKey(foods[k].x, foods[k].y, h)
  }

  /** The lineage has an entry exactly for each id issued so far. */
  ghost predicate LineageComplete(lineage: map<int, seq<int>>, nextID: int)
  {
    forall id :: id in lineage <==> 1 <= id <= nextID
  }

  /** Each agent is stored under its own id, and ids run from 1 to nextID. */
  ghost predicate IdsIssued(agents: map<int, Agent>, nextID: int)
  {
    forall id :: id in agents ==> agents[id].id == id && 1 <= id <= nextID
  }

  /** Storing an agent under the next id keeps the ids issued. */
  lemma IssueNext(agents: map<int, Agent>, n: int, a: Agent)
    requires IdsIssued(agents, n) && a.id == n + 1 && n >= 0
    ensures n + 1 !in agents && IdsIssued(agents[n + 1 := a], n + 1)
  {
    var m := agents[n + 1 := a];
    forall id | id in m
      ensures m[id].id == id && 1 <= id <= n + 1
    {
      if id != n + 1 {
        assert m[id] == agents[id];
      }
    }
  }

  /** Recording the next id's lineage keeps the lineage complete. */
  lemma LineageNext(lineage: map<int, seq<int>>, n: int, p: seq<int>)
    requires LineageComplete(lineage, n) && n >= 0
    ensures LineageComplete(lineage[n + 1 := p], n + 1)
  {
  }

  /** Every agent stands on the grid. */
  ghost predicate Placed(agents: map<int, Agent>, w: int, h: int)
    reads agents.Values`x, agents.Values`y
  {
    forall id :: id in agents ==> InBounds(agents[id].x, agents[id].y, w, h)
  }

  /** A live agent's lineage entry is its parent list. */
  ghost predicate LineageMatches(agents: map<int, Agent>, lineage: map<int, seq<int>>)
    reads agents.Values`parents
  {
    forall id :: id in agents ==> id in lineage && lineage[id] == agents[id].parents
  }

  /** Taking an agent off the registry keeps its parts of the invariant. */
  lemma RemoveKeeps(agents: map<int, Agent>, lineage: map<int, seq<int>>, id: int, n: int, w: int, h: int)
    requires IdsIssued(agents, n) && Placed(agents, w, h) && LineageMatches(agents, lineage)
    ensures IdsIssued(agents - {id}, n) && Placed(agents - {id}, w, h) && LineageMatches(agents - {id}, lineage)
  {
  }

  /** So does storing a new agent on the grid under a fresh id, with its parent
      list as lineage entry. */
  lemma AddKeeps(agents: map<int, Agent>, lineage: map<int, seq<int>>, a: Agent, w: int, h: int)
    requires Placed(agents, w, h) && LineageMatches(agents, lineage) && InBounds(a.x, a.y, w, h)
    ensures Placed(agents[a.id := a], w, h) && LineageMatches(agents[a.id := a], lineage[a.id := a.parents])
  {
  }

  class Sim {
    const W: int
    const H: int
    var agents: map<int, Agent>
    var foods: map<int, Food>
    var nextID: int
    var totalDeaths: int
    var totalAgeAtDeath: int
    var totalBirths: int
    var lineage: map<int, seq<int>>
    var randomFood: bool
    var randomFoodProb: real
    var ticksElapsed: int
    var events: seq<Event>

    /** The registry invariant every operation keeps:
        - each agent is stored under its own id, ids are 1..nextID;
        - agents stand on the grid;
        - the lineage has an entry for each id ever issued, and for a live agent
          that entry is its parent list;
        - one birth is counted per id, and deaths never outnumber the missing agents;
        - every food is on the grid under its own key;
        - the event log holds at most MaxEvents + 1 entries. */
    ghost predicate Valid()
      reads this, agents.Values`x, agents.Values`y, agents.Values`parents
    {
      && W > 0 && H > 0
      && IdsIssued(agents, nextID)
      && Placed(agents, W, H)
      && LineageMatches(agents, lineage)
      && LineageComplete(lineage, nextID)
      && totalBirths == nextID
      && 0 <= totalDeaths && totalDeaths + |agents| <= nextID
      && FoodsOnGrid(foods, W, H)
      && |events| <= MaxEvents + 1
      && 0 <= ticksElapsed
    }

    /** `a` is the live agent stored under its id. */
    ghost predicate Live(a: Agent)
      reads this
    {
      a.id in agents && agents[a.id] == a
    }

    /** `agentAt`: some agent stands on (x, y). */
    ghost predicate Occupied(x: int, y: int)
      reads this`agents, agents.Values`x, agents.Values`y
    {
      exists id :: id in agents && agents[id].x == x && agents[id].y == y
    }

    /** NewSim without its two random agents: an empty world on a w x h grid. */
    constructor (w: int, h: int)
      requires w > 0 && h > 0
      ensures Valid()
      ensures W == w && H == h && agents == map[] && foods == map[] && lineage == map[]
      ensures nextID == 0 && totalBirths == 0 && totalDeaths == 0 && totalAgeAtDeath == 0
      ensures randomFood && randomFoodProb == 0.04 && ticksElapsed == 0 && events == []
    {
      W := w;
      H := h;
      agents := map[];
      foods := map[];
      nextID := 0;
      totalDeaths := 0;
      totalAgeAtDeath := 0;
      totalBirths := 0;
      lineage := map[];
      randomFood := true;
      randomFoodProb := 0.04;
      ticksElapsed := 0;
      events := [];
    }

    /** `foodAt`: within the grid the key lookup is a search by position. */
    function FoodAt(x: int, y: int): (r: bool)
      reads this
      ensures r <==> FoodKey(x, y, H) in foods
      ensures FoodsOnGrid(foods, W, H) && InBounds(x, y, W, H) ==>
        (r <==> exists k :: k in foods && foods[k].x == x && foods[k].y == y)
    {
      FoodAtMeansFoodHere(x, y);
      FoodKey(x, y, H) in foods
    }

    lemma FoodAtMeansFoodHere(x: int, y: int)
      ensures FoodsOnGrid(foods, W, H) && InBounds(x, y, W, H) ==>
        (FoodKey(x, y, H) in foods <==> exists k :: k in foods && foods[k].x == x && foods[k].y == y)
    {
      if FoodsOnGrid(foods, W, H) && InBounds(x, y, W, H) {
        var key := FoodKey(x, y, H);
        if key in foods {
          var f := foods[key];
          FoodKeyInjective(f.x, f.y, x, y, W, H);
        }
      }
    }

    /** `agentAt`: walk the agents until one stands on (x, y). */
    method AgentAt(x: int, y: int) returns (b: bool)
      ensures b <==> Occupied(x, y)
    {
      b := false;
      var rest := agents.Keys;
      while rest != {} && !b
        invariant rest <= agents.Keys
        invariant b ==> Occupied(x, y)
        invariant !b ==> forall id :: id in agents && id !in rest ==> !(agents[id].x == x && agents[id].y == y)
        decreases rest
      {
        ghost var some := Pick(rest);  // the witness the `:|` below needs (see Basics.Pick)
        var id :| id in rest;
        if agents[id].x == x && agents[id].y == y {
          b := true;
        }
        rest := rest - {id};
      }
    }

    /** `addEvent`: log an event stamped with the current tick. */
    method AddEvent(kind: EventType, actorID: int, actorSex: Sex, targetID: int)
      modifies this`events
      ensures events == Appended(old(events), Event(kind, ticksElapsed, actorID, actorSex, targetID))
    {
      if |events| > MaxEvents {
        events := events[1..];
      }
      events := events + [Event(kind, ticksElapsed, actorID, actorSex, targetID)];
    }

    /** `AddFoodAt`: refused off the grid and on a cell that holds food or an
        agent; otherwise exactly one food is added under the cell's key. */
    method AddFoodAt(x: int, y: int, energy: real)
      requires Valid()
      modifies this`foods
      ensures Valid()
      ensures !InBounds(x, y, W, H) || FoodKey(x, y, H) in old(foods) || Occupied(x, y) ==>
        foods == old(foods)
      ensures InBounds(x, y, W, H) && FoodKey(x, y, H) !in old(foods) && !Occupied(x, y) ==>
        foods == old(foods)[FoodKey(x, y, H) := Food(x, y, energy)]
    {
      if x < 0 || x >= W || y < 0 || y >= H {
        return;
      }
      var key := x * H + y;
      var occupied := AgentAt(x, y);
      if FoodAt(x, y) || occupied {
        return;
      }
      foods := foods[key := Food(x, y, energy)];
    }

    /** `AddAgentAt`: refused off the grid; otherwise a new agent under the
        next id, with clamped traits and an empty lineage entry. */
    method AddAgentAt(x: int, y: int, energy: real, sex: Sex, aggression: real, speed: int,
                      strength: real, repro: real)
      requires Valid()
      modifies this`agents, this`nextID, this`totalBirths, this`lineage
      ensures Valid()
      ensures !InBounds(x, y, W, H) ==>
        agents == old(agents) && nextID == old(nextID) && totalBirths == old(totalBirths) && lineage == old(lineage)
      ensures InBounds(x, y, W, H) ==>
        && nextID == old(nextID) + 1 && nextID !in old(agents)
        && nextID in agents && fresh(agents[nextID])
        && agents == old(agents)[nextID := agents[nextID]]
        && agents[nextID].View() == Newcomer(nextID, x, y, energy, sex, aggression, speed, strength, repro)
        && totalBirths == old(totalBirths) + 1
        && lineage == old(lineage)[nextID := []]
    {
      if x < 0 || x >= W || y < 0 || y >= H {
        return;
      }
      var a := Admit(Newcomer(nextID + 1, x, y, energy, sex, aggression, speed, strength, repro));
    }

    /** A newborn under the next id: nextID and the birth counter advance, and
        the agent is stored with its parent list as its lineage entry. */
    method Admit(v: AgentView) returns (a: Agent)
      requires Valid() && InBounds(v.x, v.y, W, H) && v.id == nextID + 1
      modifies this`agents, this`nextID, this`lineage, this`totalBirths
      ensures Valid()
      ensures fresh(a) && a.View() == v
      ensures nextID == old(nextID) + 1 && a.id == nextID && nextID !in old(agents)
      ensures totalBirths == old(totalBirths) + 1
      ensures agents == old(agents)[nextID := a] && lineage == old(lineage)[nextID := v.parents]
    {
      a := new Agent(v);
      Enroll(a);
    }

    /** Store an agent under the next id, with its parent list as lineage entry. */
    method Enroll(a: Agent)
      requires Valid() && InBounds(a.x, a.y, W, H) && a.id == nextID + 1
      modifies this`agents, this`nextID, this`lineage, this`totalBirths
      ensures Valid()
      ensures nextID == old(nextID) + 1 && nextID !in old(agents)
      ensures totalBirths == old(totalBirths) + 1
      ensures agents == old(agents)[nextID := a] && lineage == old(lineage)[nextID := a.parents]
    {
      IssueNext(agents, nextID, a);
      MapAddCard(agents, a.id, a);
      LineageNext(lineage, nextID, a.parents);
      AddKeeps(agents, lineage, a, W, H);
      agents, lineage, nextID, totalBirths := agents[a.id := a], lineage[a.id := a.parents], nextID + 1, totalBirths + 1;
    }

    /** Take a dead agent off the registry and add it to the death statistics. */
    method Bury(v: Agent)
      requires Valid() && Live(v)
      modifies this`agents, this`totalDeaths, this`totalAgeAtDeath
      ensures agents == old(agents) - {v.id} && |agents| == |old(agents)| - 1
      ensures totalDeaths == old(totalDeaths) + 1 && totalAgeAtDeath == old(totalAgeAtDeath) + v.age
      ensures Valid()
    {
      Unregister(v);
      totalDeaths := totalDeaths + 1;
      totalAgeAtDeath := totalAgeAtDeath + v.age;
    }

    /** Take an agent off the registry. */
    method Unregister(v: Agent)
      requires Valid() && Live(v)
      modifies this`agents
      ensures agents == old(agents) - {v.id} && |agents| == |old(agents)| - 1
      ensures Valid()
    {
      ghost var before := agents;
      MapRemoveCard(agents, v.id);
      agents := agents - {v.id};
      RemoveKeeps(before, lineage, v.id, nextID, W, H);
    }

    /** `SetRandomFood`: toggles the passive food spawning of Tick. */
    method SetRandomFood(enabled: bool)
      requires Valid()
      modifies this`randomFood
      ensures Valid() && randomFood == enabled
    {
      randomFood := enabled;
    }

    /** The first step of Tick: the tick counter advances before anything else,
        so every event the later steps of that tick log is stamped at least 1. */
    method BeginTick()
      requires Valid()
      modifies this`ticksElapsed
      ensures Valid() && ticksElapsed == old(ticksElapsed) + 1 && ticksElapsed >= 1
    {
      ticksElapsed := ticksElapsed + 1;
    }

    /** One food-spawn attempt of Tick on the foods `f`: `AddFoodAt` of the drawn
        cell with energy `12 + u*12`, when spawning is on and the roll is below
        the spawn probability. */
    ghost function SpawnOne(f: map<int, Food>, d: FoodDraw): map<int, Food>
      reads this`agents, this`randomFood, this`randomFoodProb, agents.Values`x, agents.Values`y
    {
      if randomFood && d.roll < randomFoodProb && InBounds(d.x, d.y, W, H)
         && FoodKey(d.x, d.y, H) !in f && !Occupied(d.x, d.y)
      then f[FoodKey(d.x, d.y, H) := Food(d.x, d.y, 12.0 + d.u * 12.0)]
      else f
    }

    /** The foods after the attempts `draws`, taken in order. */
    ghost function Spawned(f: map<int, Food>, draws: seq<FoodDraw>): map<int, Food>
      reads this`agents, this`randomFood, this`randomFoodProb, agents.Values`x, agents.Values`y
      decreases |draws|
    {
      if draws == [] then f else SpawnOne(Spawned(f, draws[..|draws| - 1]), draws[|draws| - 1])
    }

    /** Spawning only adds food: existing food is untouched, nothing spawns
        while spawning is off, and each new food has energy in [12, 24), lies on
        an agent-free grid cell under that cell's key, and comes from a draw for
        that cell whose roll was below the spawn probability. */
    lemma {:induction false} SpawnedSound(f: map<int, Food>, draws: seq<FoodDraw>)
      requires forall i :: 0 <= i < |draws| ==> 0.0 <= draws[i].u < 1.0
      ensures forall k :: k in f ==> k in Spawned(f, draws) && Spawned(f, draws)[k] == f[k]
      ensures !randomFood ==> Spawned(f, draws) == f
      ensures forall k :: k in Spawned(f, draws) && k !in f ==>
        var g := Spawned(f, draws)[k];
        && 12.0 <= g.energy < 24.0 && InBounds(g.x, g.y, W, H) && k == FoodKey(g.x, g.y, H)
        && !Occupied(g.x, g.y)
        && exists i :: 0 <= i < |draws| && draws[i].roll < randomFoodProb && draws[i].x == g.x && draws[i].y == g.y
      decreases |draws|
    {
      if draws != [] {
        var init := draws[..|draws| - 1];
        SpawnedSound(f, init);
        assert forall i :: 0 <= i < |init| ==> init[i] == draws[i];
      }
    }

    /** Every attempt that wins its roll on an agent-free grid cell leaves food
        on that cell, whether it was there before, spawned earlier, or spawned
        by this attempt. */
    lemma {:induction false} SpawnedCovers(f: map<int, Food>, draws: seq<FoodDraw>, i: int)
      requires 0 <= i < |draws| && randomFood && draws[i].roll < randomFoodProb
      requires InBounds(draws[i].x, draws[i].y, W, H) && !Occupied(draws[i].x, draws[i].y)
      ensures FoodKey(draws[i].x, draws[i].y, H) in Spawned(f, draws)
      decreases |draws|
    {
      var init := draws[..|draws| - 1];
      if i < |draws| - 1 {
        assert init[i] == draws[i];
        SpawnedCovers(f, init, i);
      }
    }

    /** The food spawn at the start of Tick: `(W*H)/50` attempts in order (see
        `Spawned`, `SpawnedSound` and `SpawnedCovers`). */
    method SpawnFood(draws: seq<FoodDraw>)
      requires Valid()
      requires |draws| == (W * H) / 50
      requires forall i :: 0 <= i < |draws| ==> InBounds(draws[i].x, draws[i].y, W, H) && 0.0 <= draws[i].u < 1.0
      modifies this`foods
      ensures Valid()
      ensures foods == Spawned(old(foods), draws)
    {
      ghost var f0 := foods;
      var attempts := (W * H) / 50;
      for i := 0 to attempts
        invariant Valid()
        invariant foods == Spawned(f0, draws[..i])
      {
        var d := draws[i];
        assert draws[..i + 1][..i] == draws[..i] && draws[..i + 1][i] == d;
        assert Spawned(f0, draws[..i + 1]) == SpawnOne(Spawned(f0, draws[..i]), d);
        if randomFood && d.roll < randomFoodProb {
          AddFoodAt(d.x, d.y, 12.0 + d.u * 12.0);
        }
      }
      assert draws[..attempts] == draws;
    }

    /** `distanceToNearestFood`: the least Manhattan distance from (x, y) to a
        food, or W + H when the search found none below the float64 maximum. */
    method DistanceToNearestFood(x: int, y: int) returns (d: real)
      ensures (exists k :: k in foods && FoodDistance(foods[k], x, y) < MaxFloat64) ==>
        && (exists k :: k in foods && d == FoodDistance(foods[k], x, y))
        && (forall k :: k in foods ==> d <= FoodDistance(foods[k], x, y))
      ensures (forall k :: k in foods ==> FoodDistance(foods[k], x, y) >= MaxFloat64) ==>
        d == (W + H) as real
    {
      var best := MaxFloat64;
      var rest := foods.Keys;
      while rest != {}
        invariant rest <= foods.Keys
        invariant best <= MaxFloat64
        invariant forall k :: k in foods && k !in rest ==> best <= FoodDistance(foods[k], x, y)
        invariant best < MaxFloat64 ==> exists k :: k in foods && k !in rest && best == FoodDistance(foods[k], x, y)
        decreases rest
      {
        ghost var some := Pick(rest);  // the witness the `:|` below needs (see Basics.Pick)
        var k :| k in rest;
        var dk := FoodDistance(foods[k], x, y);
        if dk < best {
          best := dk;
        }
        rest := rest - {k};
      }
      if best == MaxFloat64 {
        d := (W + H) as real;
      } else {
        d := best;
      }
    }

    // -------------------------------------------------------------------------
    // The per-agent steps of Tick.

    /** Metabolism, then starvation: an agent left at energy <= 0 is removed and
        counted as a death at its age. */
    method Metabolize(a: Agent) returns (died: bool)
      requires Valid() && Live(a)
      modifies a`age, a`energy, a`hunger, this`agents, this`totalDeaths, this`totalAgeAtDeath, this`events
      ensures Valid()
      ensures a.View() == Metabolized(old(a.View()))
      ensures died <==> a.energy <= 0.0
      ensures died ==>
        && agents == old(agents) - {a.id}
        && totalDeaths == old(totalDeaths) + 1
        && totalAgeAtDeath == old(totalAgeAtDeath) + a.age
        && events == Appended(old(events), Event(Death, ticksElapsed, a.id, a.sex, 0))
      ensures !died ==>
        && agents == old(agents) && totalDeaths == old(totalDeaths)
        && totalAgeAtDeath == old(totalAgeAtDeath) && events == old(events)
    {
      a.Metabolize();
      died := a.energy <= 0.0;
      if died {
        AddEvent(Death, a.id, a.sex, 0);
        Bury(a);
      }
    }

    /** The move of Tick: decode the action and clamp the target to the grid. */
    method MoveAgent(a: Agent, act: int)
      requires Valid() && Live(a)
      modifies a`x, a`y
      ensures Valid()
      ensures a.View() == Moved(old(a.View()), act, W, H)
    {
      a.Move(act, W, H);
      MoveStaysOnGrid(old(a.View()), act, W, H);
    }

    /** Feeding on arrival: food on the agent's cell is eaten whole. */
    method FeedOnArrival(a: Agent) returns (ate: bool)
      requires Valid() && Live(a)
      modifies a`energy, a`experience, a`hunger, this`foods
      ensures Valid()
      ensures ate <==> FoodKey(a.x, a.y, H) in old(foods)
      ensures ate ==>
        && old(foods)[FoodKey(a.x, a.y, H)].x == a.x && old(foods)[FoodKey(a.x, a.y, H)].y == a.y
        && a.View() == Fed(old(a.View()), old(foods)[FoodKey(a.x, a.y, H)])
        && foods == old(foods) - {FoodKey(a.x, a.y, H)}
      ensures !ate ==> a.View() == old(a.View()) && foods == old(foods)
    {
      var key := a.x * H + a.y;
      ate := key in foods;
      if ate {
        var f := foods[key];
        FoodKeyInjective(f.x, f.y, a.x, a.y, W, H);
        a.Eat(f);
        foods := foods - {key};
      }
    }

    // -------------------------------------------------------------------------
    // Interactions. Go walks the agent map in an unspecified order and stops at
    // the first candidate whose random roll succeeds; the model takes that
    // candidate as a parameter, with `found` false when none was reached.

    /** A male other than `a`, within distance 1, whose attack roll exceeds 0.1. */
    ghost predicate AttackEligible(a: Agent, o: Agent, gauss: real)
      reads this, a, o
    {
      Live(o) && o.id != a.id && o.sex == Male && AgentDistance(a, o) <= 1 && AttackChance(a, o, gauss) > 0.1
    }

    /** `tryAttack`: a male attacks at most one eligible male; the defender
        dies, and the kill is counted, exactly when damage leaves it at energy <= 0. */
    method TryAttack(a: Agent, defender: Agent, found: bool, gauss: real, u: real) returns (attacked: bool)
      requires Valid() && Live(a)
      requires found ==> AttackEligible(a, defender, gauss)
      modifies this`agents, this`totalDeaths, this`totalAgeAtDeath, this`events
      modifies a`energy, a`experience, defender`energy
      ensures Valid()
      ensures attacked <==> found && a.sex == Male
      ensures !attacked ==>
        && agents == old(agents) && totalDeaths == old(totalDeaths) && totalAgeAtDeath == old(totalAgeAtDeath)
        && events == old(events) && a.View() == old(a.View()) && defender.View() == old(defender.View())
      ensures attacked ==>
        var killed := defender.energy <= 0.0;
        var logged := Appended(old(events), Event(Attack, ticksElapsed, a.id, a.sex, defender.id));
        && defender.View() == old(defender.View()).(energy := old(defender.energy) - Damage(u))
        && a.View() == Striker(old(a.View()), Damage(u), killed)
        && (killed ==>
             && agents == old(agents) - {defender.id}
             && totalDeaths == old(totalDeaths) + 1
             && totalAgeAtDeath == old(totalAgeAtDeath) + defender.age
             && events == Appended(logged, Event(Kill, ticksElapsed, a.id, a.sex, defender.id)))
        && (!killed ==>
             && agents == old(agents) && totalDeaths == old(totalDeaths)
             && totalAgeAtDeath == old(totalAgeAtDeath) && events == logged)
    {
      if a.sex == Female || !found {
        return false;
      }
      var killed := Fight(a, defender, u);
      return true;
    }

    /** One blow of `tryAttack`: the defender loses `Damage(u)`, the attacker
        gains a tenth of it, and a defender left at energy <= 0 is killed. */
    method Fight(a: Agent, defender: Agent, u: real) returns (killed: bool)
      requires Valid() && Live(a) && Live(defender) && a.id != defender.id
      modifies this`agents, this`totalDeaths, this`totalAgeAtDeath, this`events
      modifies a`energy, a`experience, defender`energy
      ensures Valid()
      ensures killed <==> old(defender.energy) - Damage(u) <= 0.0
      ensures defender.View() == old(defender.View()).(energy := old(defender.energy) - Damage(u))
      ensures a.View() == Striker(old(a.View()), Damage(u), killed)
      ensures killed ==> agents == old(agents) - {defender.id}
      ensures killed ==> totalDeaths == old(totalDeaths) + 1
      ensures killed ==> totalAgeAtDeath == old(totalAgeAtDeath) + defender.age
      ensures !killed ==> agents == old(agents) && totalDeaths == old(totalDeaths)
      ensures !killed ==> totalAgeAtDeath == old(totalAgeAtDeath)
      ensures var logged := Appended(old(events), Event(Attack, ticksElapsed, a.id, a.sex, defender.id));
        events == if killed then Appended(logged, Event(Kill, ticksElapsed, a.id, a.sex, defender.id)) else logged
    {
      killed := Blow(a, defender, 2.0 + u * 3.0);
      if killed {
        Slay(a, defender);
      }
    }

    /** The kill: logged, then the victim is buried. */
    method Slay(a: Agent, victim: Agent)
      requires Valid() && Live(victim)
      modifies this`agents, this`totalDeaths, this`totalAgeAtDeath, this`events
      ensures Valid()
      ensures agents == old(agents) - {victim.id}
      ensures totalDeaths == old(totalDeaths) + 1 && totalAgeAtDeath == old(totalAgeAtDeath) + victim.age
      ensures events == Appended(old(events), Event(Kill, ticksElapsed, a.id, a.sex, victim.id))
    {
      AddEvent(Kill, a.id, a.sex, victim.id);
      Bury(victim);
    }

    /** The exchange of one blow, logged as an attack; the result says whether
        it left the defender at energy <= 0. */
    method Blow(a: Agent, defender: Agent, damage: real) returns (lethal: bool)
      requires Valid() && a.id != defender.id
      modifies this`events, a`energy, a`experience, defender`energy
      ensures Valid()
      ensures lethal <==> old(defender.energy) - damage <= 0.0
      ensures defender.View() == old(defender.View()).(energy := old(defender.energy) - damage)
      ensures a.View() == Striker(old(a.View()), damage, lethal)
      ensures events == Appended(old(events), Event(Attack, ticksElapsed, a.id, a.sex, defender.id))
    {
      defender.Suffer(damage);
      lethal := defender.energy <= 0.0;
      a.Strike(damage, lethal);
      AddEvent(Attack, a.id, a.sex, defender.id);
    }

    /** A live agent of the other sex within distance 1, both energies above 15. */
    ghost predicate MateEligible(a: Agent, o: Agent)
      reads this, a, o
    {
      Live(o) && o.id != a.id && o.sex != a.sex && AgentDistance(a, o) <= 1 && a.energy > 15.0 && o.energy > 15.0
    }

    /** `tryReproduce`: with an eligible partner a child is born under the next
        id, recorded in the lineage with both parents, and both parents pay. */
    method TryReproduce(a: Agent, partner: Agent, found: bool, childSex: Sex,
                        aggJitter: real, speedJitter: int, reproJitter: real, strengthJitter: real)
      returns (child: Agent?)
      requires Valid() && Live(a)
      requires found ==> MateEligible(a, partner)
      modifies this`agents, this`nextID, this`lineage, this`totalBirths, this`events
      modifies a`energy, a`experience, partner`energy, partner`experience
      ensures Valid()
      ensures !found ==>
        && child == null && agents == old(agents) && nextID == old(nextID) && lineage == old(lineage)
        && totalBirths == old(totalBirths) && events == old(events)
        && a.View() == old(a.View()) && partner.View() == old(partner.View())
      ensures found ==>
        && child != null && fresh(child)
        && child.id == nextID && nextID == old(nextID) + 1 && child.id !in old(agents)
        && agents == old(agents)[child.id := child]
        && lineage == old(lineage)[child.id := [a.id, partner.id]]
        && totalBirths == old(totalBirths) + 1
        && events == Appended(old(events), Event(Birth, ticksElapsed, child.id, childSex, 0))
        && child.View() == Child(old(a.View()), old(partner.View()), child.id, childSex,
                                 aggJitter, speedJitter, reproJitter, strengthJitter)
        && a.View() == Parent(old(a.View())) && partner.View() == Parent(old(partner.View()))
    {
      if !found {
        return null;
      }
      child := Mate(a, partner, childSex, aggJitter, speedJitter, reproJitter, strengthJitter);
    }

    /** The birth itself: the child is admitted and logged, then both parents pay. */
    method Mate(a: Agent, partner: Agent, childSex: Sex,
                aggJitter: real, speedJitter: int, reproJitter: real, strengthJitter: real)
      returns (child: Agent)
      requires Valid() && Live(a) && MateEligible(a, partner)
      modifies this`agents, this`nextID, this`lineage, this`totalBirths, this`events
      modifies a`energy, a`experience, partner`energy, partner`experience
      ensures Valid()
      ensures fresh(child)
      ensures child.id == nextID && nextID == old(nextID) + 1 && child.id !in old(agents)
      ensures agents == old(agents)[child.id := child]
      ensures lineage == old(lineage)[child.id := [a.id, partner.id]]
      ensures totalBirths == old(totalBirths) + 1
      ensures events == Appended(old(events), Event(Birth, ticksElapsed, child.id, childSex, 0))
      ensures child.View() == Child(old(a.View()), old(partner.View()), child.id, childSex,
                                    aggJitter, speedJitter, reproJitter, strengthJitter)
      ensures a.View() == Parent(old(a.View())) && partner.View() == Parent(old(partner.View()))
    {
      child := Admit(Child(a.View(), partner.View(), nextID + 1, childSex,
                           aggJitter, speedJitter, reproJitter, strengthJitter));
      AddEvent(Birth, child.id, child.sex, 0);
      ChargeParents(a, partner);
    }

    /** Both parents pay for a birth. */
    method ChargeParents(a: Agent, partner: Agent)
      requires Valid() && a.id != partner.id
      modifies a`energy, a`experience, partner`energy, partner`experience
      ensures Valid()
      ensures a.View() == Parent(old(a.View())) && partner.View() == Parent(old(partner.View()))
    {
      a.PayForBirth();
      partner.PayForBirth();
    }

    /** A live agent of the same sex within distance 1, combined energy above 40. */
    ghost predicate MergeEligible(a: Agent, o: Agent)
      reads this, a, o
    {
      Live(o) && o.id != a.id && o.sex == a.sex && AgentDistance(a, o) <= 1 && a.energy + o.energy > 40.0
    }

    /** `tryMerge`: the survivor absorbs the partner (see `Merged`), its lineage
        entry follows its new parent list, and the absorbed agent leaves. */
    method TryMerge(a: Agent, other: Agent, found: bool) returns (merged: bool)
      requires Valid() && Live(a)
      requires found ==> MergeEligible(a, other)
      modifies this`agents, this`lineage, this`events
      modifies a`energy, a`aggression, a`strength, a`repro, a`speed, a`experience, a`parents
      ensures Valid()
      ensures merged <==> found
      ensures !merged ==>
        agents == old(agents) && lineage == old(lineage) && events == old(events) && a.View() == old(a.View())
      ensures merged ==>
        && old(a.energy) + other.energy > 40.0
        && a.View() == Merged(old(a.View()), other.View())
        && lineage == old(lineage)[a.id := a.parents]
        && agents == old(agents) - {other.id} && |agents| == |old(agents)| - 1
        && events == Appended(old(events), Event(Merge, ticksElapsed, a.id, a.sex, other.id))
    {
      if !found {
        return false;
      }
      Fuse(a, other);
      return true;
    }

    /** The merge itself: the survivor absorbs `other`, its lineage entry is
        rewritten, the merge is logged and `other` leaves the registry. */
    method Fuse(a: Agent, other: Agent)
      requires Valid() && Live(a) && MergeEligible(a, other)
      modifies this`agents, this`lineage, this`events
      modifies a`energy, a`aggression, a`strength, a`repro, a`speed, a`experience, a`parents
      ensures Valid()
      ensures a.View() == Merged(old(a.View()), other.View())
      ensures lineage == old(lineage)[a.id := a.parents]
      ensures agents == old(agents) - {other.id}
      ensures |agents| == |old(agents)| - 1
      ensures events == Appended(old(events), Event(Merge, ticksElapsed, a.id, a.sex, other.id))
    {
      Absorption(a, other);
      AddEvent(Merge, a.id, a.sex, other.id);
      Unregister(other);
    }

    /** The survivor's side of a merge: its new traits and parent list, and
        the lineage entry that follows the parent list. */
    method Absorption(a: Agent, other: Agent)
      requires Valid() && Live(a) && MergeEligible(a, other)
      modifies this`lineage
      modifies a`energy, a`aggression, a`strength, a`repro, a`speed, a`experience, a`parents
      ensures Valid()
      ensures a.View() == Merged(old(a.View()), other.View())
      ensures lineage == old(lineage)[a.id := a.parents]
    {
      a.Absorb(other);
      lineage := lineage[a.id := a.parents];
    }
  }
}
