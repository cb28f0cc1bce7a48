# aalive engine core in Dafny

This project models the simulation engine of aalive, a tick-driven 2D grid world.
Agents forage, fight, reproduce, merge and learn where to move. The repository has
three engine variants, and each is one Go package:

- `sim` uses an actor-critic policy;
- `sim_v2` uses tabular Q-learning;
- `sim_v3` uses Q-learning plus a physiology (fatigue, hunger, stress, health).

All three keep agents in a map keyed by an increasing id and food in a map
keyed by `x*H + y`. `sim` and `sim_v2` share one world layout, which also holds
a lineage map (child id to parent ids), birth and death counters, a tick
counter and a capped event log. `sim_v3` keeps only agents, foods and `nextID`.

The model keeps the engine's discrete rules and its bookkeeping. Energies, traits
and Q-values are `real`. Every random draw is a parameter of the method that
consumes it, with the range the Go generator gives it. Go walks a map in an
unspecified order, so a loop that stops at the first eligible partner becomes
a parameter: the chosen agent, which must meet the eligibility predicate, plus a
`found` flag.

Modules:

- `Basics`: integer and real clamps, `abs`/`max`, Go's truncating `%` and `/`,
  action decoding `dx = act%3 - 1`, `dy = act/3 - 1`, the food key, and the
  experience counter maps.
- `Events`: the capped event log of `sim` and `sim_v2`.
- `QTables`: the Q-table algebra that `sim_v2` and `sim_v3` share. It is generic
  in the state key and covers the maximum of a row, greedy choice, both update
  rules, merging, inheriting and sharing tables, each with the Go loop that
  builds it.
- `SimV1` (`sim/sim.go`): the world as a `Sim` class and agents as `Agent` objects.
  Each per-agent step is a function on `AgentView`, the agent's fields as a value.
  The agent's methods are proved against these functions. `Sim.Valid()` is the
  registry invariant, and every operation keeps it.
- `SimV2` (`sim_v2/sim.go`): the world and bodies are exactly those of `sim/sim.go`,
  so they are reused from `SimV1`. This module adds each agent's learner (a class
  linked to its body), the state key, epsilon-greedy choice, the update, epsilon
  decay, the reward, and the Q-table blending of merge and birth.
- `SimV3` (`sim_v3/sim.go`): agents with physiology and an eight-part state key.
  This variant has learning-rate adaptation, experience sharing, mutation at
  birth, and its own registry, which does no bounds checking.

## Model

| member | source | states |
|---|---|---|
| `Basics.Clamp` | sim/sim.go:814-822 | the result lies in [lo, hi] when lo <= hi; a value inside is kept; below gives lo, above gives hi |
| `Basics.ClampF` | sim/sim.go:826-834 | the same for float64, on reals |
| `Basics.Abs` | sim/sim.go:836-841 | the result is non-negative and is x or -x |
| `Basics.Max` | sim/sim.go:807-812 | the result is at least both arguments and is one of them |
| `Basics.Min` | sim_v2/sim.go:337-339 | the result is at most both arguments and is one of them |
| `Basics.DecodeEncode` | sim/sim.go:209-211 | every action 0..8 decodes to offsets in {-1,0,1}, and re-encoding them as `(dy+1)*3 + dx+1` gives the action back |
| `Basics.EncodeDecode` | sim_v2/sim.go:281-286 | every offset pair encodes to an action 0..8 that decodes back to that pair |
| `Basics.Step` | sim/sim.go:209-215 | the clamped move stays on the grid; from an on-grid cell each coordinate changes by at most 1; a target already on the grid is reached exactly |
| `Basics.FoodKeyDecode` | sim/sim.go:564-568 | on the grid, the key `x*H + y` lies in [0, W*H), and `key / H`, `key % H` give back x and y |
| `Basics.FoodKeyInjective` | sim/sim.go:559-562 | two on-grid cells with the same key are the same cell |
| `Basics.Inc` | sim/sim.go:222-224 | `m[k]++` adds k, raises its count by one, and leaves every other counter alone |
| `Basics.SumCountsEntries` | sim/sim.go:766-768 | the summed counters hold the keys of both maps, each key's count being the sum of both |
| `Basics.AddCounts` | sim/sim.go:766-768 | the `a.Experience[k] += v` loop computes the summed counters |
| `Basics.MapAddCard` | sim/sim.go:903 | storing a new key grows a map by exactly one |
| `Basics.MapRemoveCard` | sim/sim.go:195 | deleting a stored key shrinks a map by exactly one |
| `Events.Appended` | sim/sim.go:144-156 | a log of at most 5001 entries stays at most 5001 after an append |
| `Events.AppendedShape` | sim/sim.go:144-156 | the new event is last; the rest is the old log, or the old log without its oldest entry when it held more than 5000 |
| `Events.AppendAllBounded` | sim/sim.go:144-156 | however many events are appended, the log never exceeds 5001 entries |
| `Events.AppendAllKeepsRecent` | sim/sim.go:144-156 | after appending up to 5001 events, the log ends with exactly those events in arrival order |
| `QTables.MaxOr0` | sim_v2/sim.go:378-385 | the value is at least 0, at least every stored value, and is a stored value unless it is 0 |
| `QTables.MaxValueOrZero` | sim_v2/sim.go:378-385 | the `maxNextQ` loop returns the largest stored value, or 0 |
| `QTables.MaxOr0Unique` | sim_v2/sim.go:378-385 | the maximum-or-zero of a row is unique, so any loop meeting its definition computes `MaxOr0` |
| `QTables.ArgMaxFrom` | sim_v2/sim.go:354-366 | the greedy scan returns its start when nothing beats the start value, otherwise an action with the largest value, larger than the start value |
| `QTables.GreedyIsArgMax` | sim_v2/sim.go:354-366 | a scan started from a stored action's own value returns an action whose value is at least every stored value |
| `QTables.GreedyBelowAll` | sim_v3/sim.go:707-717 | a scan started below every stored value returns a stored action holding the maximum |
| `QTables.MaxOr0WithZero` | sim_v3/sim.go:664-671 | a new zero entry does not change the maximum |
| `QTables.UpdatesAgree` | sim_v3/sim.go:676-677 | the `q*(1-a) + a*(r + g*m)` form equals the `q + a*(r + g*m - q)` form |
| `QTables.UpdateMovesTowardTarget` | sim_v2/sim.go:387-389 | with a rate in [0,1] the new value lies between the old value and the target; rate 0 keeps the old value; rate 1 takes the target |
| `QTables.MergeTablesEntries` | sim_v2/sim.go:639-654 | the merged keys are the union; an entry in both becomes `a*wa + b*wb`; an entry only in the absorbed agent is copied; an entry only in the survivor is kept |
| `QTables.MergeRowFrom` | sim_v2/sim.go:641-647 | the inner merge loop computes `MergeRow` |
| `QTables.MergeTablesFrom` | sim_v2/sim.go:639-654 | the outer merge loop computes `MergeTables` |
| `QTables.MergedTable` | sim_v2/sim.go:639-654 | a table with the union of keys and merged rows is `MergeTables` |
| `QTables.ChildTableKeys` | sim_v2/sim.go:574-595 | the child's states are the union of both parents' states; a state of the first parent has exactly that parent's actions; any other state has all of the second parent's actions |
| `QTables.ChildValueBetween` | sim_v2/sim.go:584 | without noise, a value both parents hold becomes their mean, between the two |
| `QTables.BlendRowFrom` | sim_v2/sim.go:575-585 | the loop over the first parent's actions computes `BlendRow` |
| `QTables.NoisyRowFrom` | sim_v2/sim.go:589-593 | the loop over the second parent's actions computes `NoisyRow` |
| `QTables.ChildTableFrom` | sim_v2/sim.go:574-595 | the two loops together compute `ChildTable` |
| `QTables.ChildTableIs` | sim_v2/sim.go:574-595 | a table with the union of keys, blended and noisy rows is `ChildTable` |
| `QTables.FillTableEntries` | sim_v3/sim.go:527-549 | after filling, the keys are the union; an existing entry is unchanged; a missing entry gets 0.7 times the other table's value |
| `QTables.FillTableSameKeys` | sim_v3/sim.go:527-549 | both filled tables hold the same (state, action) keys |
| `QTables.FillRowFrom` | sim_v3/sim.go:532-536 | the inner sharing loop computes `FillRow` |
| `QTables.FillTableFrom` | sim_v3/sim.go:528-537 | one direction of sharing computes `FillTable` |
| `QTables.FilledTable` | sim_v3/sim.go:528-537 | a table with the union of keys and filled rows is `FillTable` |
| `QTables.FillRowAfterFill` | sim_v3/sim.go:539-548 | filling a row from a row already filled from it equals filling it from the original |
| `QTables.FillAfterFill` | sim_v3/sim.go:539-548 | the second pass reads the already filled table, with the same result as reading the original table |
| `SimV1.Newcomer` | sim/sim.go:871-883 | the new agent has age 0, an empty history, aggression in [0,1], speed in [1,5] and repro = clamp(repro*1.5, 0, 1); in-range inputs are kept |
| `SimV1.MetabolismCost` | sim/sim.go:185-190 | age and hunger rise by 1; energy falls by 0.08, or by 0.23 once hunger exceeds 100; nothing else changes |
| `SimV1.MoveStaysOnGrid` | sim/sim.go:209-215 | the moved agent is on the grid; each coordinate moves by at most 1; only x and y change |
| `SimV1.FeedingGains` | sim/sim.go:220-226 | eating adds the food's energy, resets hunger to 0 and raises only the `ate` counter |
| `SimV1.Damage` | sim/sim.go:652 | a draw in [0,1) gives damage in [2,5) |
| `SimV1.StrikerCounts` | sim/sim.go:653-662 | the attacker gains a tenth of the damage; `attacks` rises by 1; `kills` rises by 1 exactly when the defender died |
| `SimV1.MergedSurvivor` | sim/sim.go:753-798 | the survivor has energy = combined*0.85 (so strictly less than combined, above 34); aggression and repro in [0,1]; speed = clamp(max of the speeds, 1, 5); counters summed; the absorbed id appended to its parents; id, position, sex and age kept |
| `SimV1.ChildTraits` | sim/sim.go:682-697 | the child sits on the first parent's cell with age 0 and parents [a, b]; its energy is a quarter of the sum; aggression and repro are in [0,1] and speed in [1,3] |
| `SimV1.ParentPays` | sim/sim.go:727-730 | a parent above 15 energy keeps 85% of it (strictly less), and its `repro` counter rises by 1 |
| `SimV1.Agent.constructor` | sim/sim.go:871-883 | the new agent's fields are those of the given view |
| `SimV1.Agent.Metabolize` | sim/sim.go:185-190 | the agent becomes `Metabolized` of its old fields |
| `SimV1.Agent.Move` | sim/sim.go:209-215 | the agent becomes `Moved` of its old fields |
| `SimV1.Agent.Eat` | sim/sim.go:220-226 | the agent becomes `Fed` of its old fields |
| `SimV1.Agent.Strike` | sim/sim.go:653-662 | the attacker becomes `Striker` of its old fields |
| `SimV1.Agent.Suffer` | sim/sim.go:653 | the defender loses exactly the damage |
| `SimV1.Agent.PayForBirth` | sim/sim.go:727-730 | the parent becomes `Parent` of its old fields |
| `SimV1.Agent.Absorb` | sim/sim.go:753-798 | the survivor becomes `Merged` of both agents' fields |
| `SimV1.IssueNext` | sim/sim.go:868-869 | storing an agent under `nextID + 1` keeps every id stored under itself and bounded by the new `nextID` |
| `SimV1.RemoveKeeps` | sim/sim.go:195 | removing an agent keeps the registry invariant's agent parts |
| `SimV1.LineageNext` | sim/sim.go:868-905 | recording the lineage of the next id keeps an entry for exactly the ids issued |
| `SimV1.AddKeeps` | sim/sim.go:903-905 | storing an on-grid agent with its parent list as the lineage entry keeps placement and lineage |
| `SimV1.Sim.constructor` | sim/sim.go:85-101 | an empty world with random food on at probability 0.04, zero counters and an empty log |
| `SimV1.Sim.FoodAt` | sim/sim.go:559-562 | the key lookup is true exactly when some food lies on (x, y) |
| `SimV1.Sim.FoodAtMeansFoodHere` | sim/sim.go:559-568 | on the grid, the key lookup and the search by position agree |
| `SimV1.Sim.AgentAt` | sim/sim.go:570-577 | the result is true exactly when some agent stands on (x, y) |
| `SimV1.Sim.AddEvent` | sim/sim.go:144-156 | the log becomes `Appended` of the old log and the event stamped with the current tick |
| `SimV1.Sim.AddFoodAt` | sim/sim.go:843-854 | off the grid, or on a cell with food or an agent, the foods are unchanged; otherwise exactly one food is added under `x*H + y`; nothing else changes |
| `SimV1.Sim.AddAgentAt` | sim/sim.go:862-906 | a no-op off the grid; otherwise `nextID` rises by 1, the new agent gets that id and the `Newcomer` fields, `totalBirths` rises by 1 and `lineage[id] = []` |
| `SimV1.Sim.Admit` | sim/sim.go:682-689 | a new agent gets the next id; `nextID` and births rise by 1; its parent list becomes its lineage entry |
| `SimV1.Sim.Enroll` | sim/sim.go:903-905 | storing under the next id keeps the invariant and updates agents, lineage, `nextID` and births together |
| `SimV1.Sim.Bury` | sim/sim.go:192-195 | the agent is removed, the death count rises by 1 and the age sum by its age |
| `SimV1.Sim.Unregister` | sim/sim.go:195 | the agent is removed and the population drops by one; the invariant holds |
| `SimV1.Sim.SetRandomFood` | sim/sim.go:856-860 | the spawning flag becomes the argument |
| `SimV1.Sim.BeginTick` | sim/sim.go:170 | the tick counter advances by one, so every event logged later in the tick is stamped at least 1; the same step begins Tick in sim_v2/sim.go:188 |
| `SimV1.Sim.SpawnFood` | sim/sim.go:172-183 | the foods become `Spawned` of the old foods and the draws: the attempts in order, each an `AddFoodAt` of its cell with energy `12 + 12u` when spawning is on and its roll is below the spawn probability |
| `SimV1.Sim.SpawnedSound` | sim/sim.go:172-183 | spawning only adds food: existing food is untouched; nothing spawns while spawning is off; each new food has energy in [12,24), lies on an agent-free grid cell under its own key and comes from a winning draw for that cell |
| `SimV1.Sim.SpawnedCovers` | sim/sim.go:174-181 | every attempt that wins its roll on an agent-free grid cell leaves food on that cell |
| `SimV1.Sim.DistanceToNearestFood` | sim/sim.go:588-600 | the least Manhattan distance to a food, or W + H when there is none |
| `SimV1.Sim.Metabolize` | sim/sim.go:185-197 | metabolism as above; the agent is removed exactly when its energy is then <= 0, and then `totalDeaths` rises by 1, `totalAgeAtDeath` by its age, and a death event is logged |
| `SimV1.Sim.MoveAgent` | sim/sim.go:209-215 | the agent takes the decoded, clamped move |
| `SimV1.Sim.FeedOnArrival` | sim/sim.go:220-226 | the agent eats exactly when its cell's key holds food; that food is on its cell, is eaten whole and its key is removed |
| `SimV1.Sim.TryAttack` | sim/sim.go:638-669 | nothing happens for a female or without a target; otherwise exactly one male within distance 1 is hit; he is removed, and the death and kill counted, exactly when his energy ends <= 0 |
| `SimV1.Sim.Fight` | sim/sim.go:650-666 | one resolved attack: damage `2 + 3u`, attacker credit, and a kill exactly when the defender ends <= 0 |
| `SimV1.Sim.Blow` | sim/sim.go:652-656 | the defender loses the damage, the attacker becomes `Striker`, the attack is logged, and the result says whether the defender ends <= 0 |
| `SimV1.Sim.Slay` | sim/sim.go:657-662 | the kill is logged, the victim removed and its death counted |
| `SimV1.Sim.TryReproduce` | sim/sim.go:671-739 | without a partner nothing changes; with an opposite-sex partner within distance 1 and both energies above 15, the child gets the new `nextID`, the lineage records [a, partner], births rise by 1, and both parents pay |
| `SimV1.Sim.Mate` | sim/sim.go:676-732 | a birth: the child is admitted and logged, and both parents pay |
| `SimV1.Sim.ChargeParents` | sim/sim.go:727-730 | both parents become `Parent` of their old fields |
| `SimV1.Sim.TryMerge` | sim/sim.go:741-805 | with a same-sex partner within distance 1 and combined energy above 40, the survivor becomes `Merged`, its lineage entry follows its parents, the absorbed agent is removed, and the count drops by exactly one |
| `SimV1.Sim.Fuse` | sim/sim.go:753-801 | the merge itself: absorb, rewrite the lineage entry, log, remove the partner |
| `SimV1.Sim.Absorption` | sim/sim.go:756-797 | the survivor becomes `Merged` and its lineage entry is set to its new parent list |
| `SimV2.AllStatesInRange` | sim_v2/sim.go:139-148 | a key is one of the enumerated states exactly when its buckets are in range |
| `SimV2.InitialValue` | sim_v2/sim.go:154 | a draw in [0,1) gives a starting value in [-0.05, 0.05) |
| `SimV2.InitialTableCovers` | sim_v2/sim.go:136-160 | every in-range key has a row holding exactly the actions 0..8 |
| `SimV2.InitialRowFrom` | sim_v2/sim.go:152-155 | the action loop builds that row |
| `SimV2.WithInitialTable` | sim_v2/sim.go:136-160 | the five nested loops add the starting row of every in-range state and keep other states |
| `SimV2.FoodDirectionStepsToward` | sim_v2/sim.go:281-286 | a found food's direction code is an action whose step goes toward the food |
| `SimV2.DistanceBucket` | sim_v2/sim.go:289-300 | the distance bucket is in 0..4 |
| `SimV2.EnergyLevel` | sim_v2/sim.go:302-311 | the energy bucket is in 0..4 |
| `SimV2.BucketsMonotone` | sim_v2/sim.go:289-311 | nearer food never gives a farther bucket; more energy never gives a lower bucket |
| `SimV2.NearestFood` | sim_v2/sim.go:270-278 | the food loop finds a nearest food, or none |
| `SimV2.CountRivals` | sim_v2/sim.go:313-322 | the threat loop counts the males other than the agent within distance 2 |
| `SimV2.CountNeighbours` | sim_v2/sim.go:327-336 | the crowding loop counts the other agents within distance 3 |
| `SimV2.GetStateKey` | sim_v2/sim.go:269-348 | the key is in range (direction 0..8, distance 0..4, energy 0..4, threat 0..3, nearby 0..3); its parts are the nearest food's direction and bucket, the energy bucket, and the counts capped at 3 |
| `SimV2.DecayedBounds` | sim_v2/sim.go:262-264 | one decay never raises epsilon, keeps it positive, and keeps it at least 0.009995 once it is there |
| `SimV2.DecayForever` | sim_v2/sim.go:262-264 | over any number of ticks, epsilon stays positive, never rises, and stays at least min(start, 0.009995) |
| `SimV2.RewardIncentives` | sim_v2/sim.go:254-260 | a kill adds 5, a birth 3, one step nearer the food 1.5; an idle step earns only the 0.1 bonus above 50 energy |
| `SimV2.MergeWeightsShare` | sim/sim.go:760-761 | the merge weights are non-negative and sum to less than 1 |
| `SimV2.BlendStaysInUnit` | sim_v2/sim.go:656-658 | a rate blended with those weights from two rates in [0,1] stays in [0,1] |
| `SimV2.Agent.Newborn` | sim_v2/sim.go:745-755 | a new learner: epsilon 0.3, alpha 0.1, gamma 0.95, policy direction 4, full starting table |
| `SimV2.Agent.Inherit` | sim_v2/sim.go:568-595 | the child's learner has the parents' mean rates and the `ChildTable` of their tables |
| `SimV2.Agent.InitializeQTable` | sim_v2/sim.go:136-160 | the table gains the starting rows of all in-range states |
| `SimV2.Agent.ChooseAction` | sim_v2/sim.go:350-367 | a roll below epsilon returns the random action; otherwise the greedy action's value is at least every value stored for the state |
| `SimV2.Agent.Remember` | sim_v2/sim.go:226-228 | the acted-on state and action are recorded, and the action is shown as the policy direction |
| `SimV2.Agent.UpdateQTable` | sim_v2/sim.go:369-390 | only entry [lastState][lastAction] changes, to old + alpha*(r + gamma*maxNext - old), where maxNext = max(0, next state's values) |
| `SimV2.Agent.DecayEpsilon` | sim_v2/sim.go:262-264 | epsilon becomes `Decayed` of its old value |
| `SimV2.Agent.AbsorbTable` | sim_v2/sim.go:639-658 | the table becomes `MergeTables` of both, and the rates are blended with the same weights |
| `SimV2.AddAgentAt` | sim_v2/sim.go:726-759 | the `sim/sim.go` placement, plus a learner with a full starting table |
| `SimV2.TryMerge` | sim_v2/sim.go:610-669 | with no merge, the registry, lineage, log, survivor body and learner are unchanged; with one, the `sim/sim.go` merge of bodies (survivor `Merged`, lineage entry rewritten, partner removed, one agent fewer, merge logged), plus the energy-weighted merge of tables and rates |
| `SimV2.TryReproduce` | sim_v2/sim.go:542-608 | with no partner, the registry, `nextID`, lineage, births, log and both bodies are unchanged; with one, the `sim/sim.go` birth (child under the new `nextID`, lineage [a, partner], births +1, birth logged, both parents pay), plus the child's inherited table and mean rates |
| `SimV3.AccumulatedBounds` | sim_v3/sim.go:630-643 | a counter never exceeds 100, a counter at most 100 never falls, and below the cap it grows by exactly the increment |
| `SimV3.WornBounds` | sim_v3/sim.go:645-649 | health is floored at 0 and does not rise under a non-negative load |
| `SimV3.BucketsInRange` | sim_v3/sim.go:555-563 | with counters in [0,100]: fatigue bucket 0..4, hunger 0..3, stress 0..3; the energy bucket is at most 4 |
| `SimV3.NegativeStressBucket` | sim_v3/sim.go:518-519 | stress pushed below zero gives bucket -1 |
| `SimV3.Assessment` | sim_v3/sim.go:753-773 | the threat level is 0..2 and the nearby count at most the number of agents seen |
| `SimV3.AssessmentQuiet` | sim_v3/sim.go:753-773 | no close agent with aggression above 0.5 means threat 0; no close agent means (0, 0) |
| `SimV3.AssessmentLastWins` | sim_v3/sim.go:762-767 | a strong and aggressive close agent seen last sets threat 2 whatever came before |
| `SimV3.AssessEnvironment` | sim_v3/sim.go:753-773 | the loop computes `Assessment` |
| `SimV3.TotalCountAny` | sim_v3/sim.go:597-600 | the experience total does not depend on which counter is summed first |
| `SimV3.TotalCountInc` | sim_v3/sim.go:597-600 | each counted event raises the experience total by one |
| `SimV3.TotalExperience` | sim_v3/sim.go:597-600 | the summing loop computes the total of all counters |
| `SimV3.ExplorationSettles` | sim_v3/sim.go:582-603 | adapting twice equals adapting once; a rate in [0.01, 0.3] stays there; a middle-aged agent with energy kept its rate |
| `SimV3.BehaviorModifierBounds` | sim_v3/sim.go:605-625 | the modifier is the energy fraction times a factor in [0.8, 1.8], exactly 1 for a middle-aged, inexperienced agent, and monotone in energy |
| `SimV3.DecayedEpsilonBounds` | sim_v3/sim.go:682-690 | the decayed epsilon is at least 0.01, at most max(old, 0.01), and strictly lower when above the floor |
| `SimV3.DecayedAllBounds` | sim_v3/sim.go:682-690 | over any run of rewards, epsilon stays in [0.01, max(start, 0.01)] |
| `SimV3.LearningStepBetween` | sim_v3/sim.go:676-677 | both adapted rates lie in [0,1]; the step moves the value toward the target; rate 0 keeps it |
| `SimV3.RewardIncentives` | sim_v3/sim.go:455-476 | a birth is worth 0.05, a kill 0.02, a meal 0.01, group membership 0.2; a point of hunger, fatigue or stress costs 0.005 |
| `SimV3.MutatedTraitBounds` | sim_v3/sim.go:309-347 | a trait in range stays in range and moves by at most the drawn change; a fired mutation always lands in range |
| `SimV3.MutatedSpeedBounds` | sim_v3/sim.go:318-326 | a speed in [1,5] stays there and moves by at most 1 |
| `SimV3.DrawSize` | sim_v3/sim.go:310 | a change `(u - 0.5)*w` is at most w/2 either way |
| `SimV3.ChildTraitsInRange` | sim_v3/sim.go:291-306 | the child of in-range parents has aggression and repro in [0,1], speed in [1,5] and strength in [0,100] |
| `SimV3.Agent.constructor` | sim_v3/sim.go:93-123 | `NewAgent` with the traits overwritten: health 100, zero physiology, no group, empty table, epsilon 0.1, alpha 0.1, gamma 0.9 |
| `SimV3.Agent.UpdatePhysiology` | sim_v3/sim.go:627-653 | fatigue, hunger and stress grow by their draws and are capped at 100, so a counter at most 100 never falls; health loses a six-hundredth of their sum and is floored at 0, so it never rises while that sum is non-negative (stress pushed below zero can make it negative); energy drops by exactly 0.08 |
| `SimV3.Agent.AdaptBehavior` | sim_v3/sim.go:582-603 | epsilon follows age and energy; alpha becomes 0.15 once more than 10 events were counted |
| `SimV3.Agent.CalculateBehaviorModifier` | sim_v3/sim.go:605-625 | the modifier of this agent, within [0.8, 1.8] times its energy fraction (never called in the source) |
| `SimV3.Agent.UpdateState` | sim_v3/sim.go:551-580 | the key's buckets come from the agent's own fields, and its threat and nearby parts from the assessment; the behaviour is adapted |
| `SimV3.Agent.AdaptLearningParameters` | sim_v3/sim.go:682-697 | epsilon is multiplied by 0.995 when r > 0.5, by 0.999 otherwise, floored at 0.01; alpha becomes 0.15 when r > 0.3, else 0.05 |
| `SimV3.Agent.QLearn` | sim_v3/sim.go:655-680 | the rows of `state` and `nextState` exist afterwards; only Q[state][action] changes, to (1 - alpha)*Q + alpha*(r + gamma*max(0, Q[nextState])); other states keep their rows |
| `SimV3.Agent.ChooseAction` | sim_v3/sim.go:699-718 | a roll below epsilon returns the random action; the greedy choice returns 0 for an unknown state and otherwise a maximal action |
| `SimV3.Agent.ShareExperience` | sim_v3/sim.go:527-549 | each table becomes the other filled into it: union of keys, old entries kept, missing entries set to 0.7 times the other's |
| `SimV3.Agent.ApplyMutations` | sim_v3/sim.go:308-348 | each trait changes only when its roll is below 0.1, and is then clamped to its range |
| `SimV3.Agent.PayForBirth` | sim_v3/sim.go:284-287 | the parent loses exactly 10 energy and its `repro` counter rises by 1 |
| `SimV3.Sim.constructor` | sim_v3/sim.go:125-139 | an empty world with `nextID` 0 |
| `SimV3.Sim.AddAgentAt` | sim_v3/sim.go:147-162 | the id is the old `nextID`, which then rises by 1; the id is fresh and larger than every earlier id; other agents are kept; the new agent has the given cell and traits, unclamped, and the defaults: age 0, empty experience and parents, no group, zero fatigue, hunger and stress, health 100, empty table, epsilon 0.1, alpha 0.1, gamma 0.9 |
| `SimV3.Sim.AddFoodAt` | sim_v3/sim.go:168-176 | food is added under `x*H + y` unless that key is taken; nothing else is checked |
| `SimV3.Sim.AgentAt` | sim_v3/sim.go:393-400 | the result is true exactly when some agent stands on (x, y) |
| `SimV3.Sim.SpawnFood` | sim_v3/sim.go:209-219 | the foods become `Spawned` of the old foods and the draws: the attempts in order, each placing a food of energy `12 + 12u` on its cell when its roll is below 0.04 and the cell holds neither food nor an agent |
| `SimV3.Sim.SpawnedSound` | sim_v3/sim.go:209-219 | spawning only adds food: existing food is untouched; each new food has energy in [12,24), lies on an agent-free grid cell under its own key and comes from a draw for that cell with roll below 0.04 |
| `SimV3.Sim.SpawnedCovers` | sim_v3/sim.go:210-218 | every attempt that wins its roll on an agent-free cell leaves food under that cell's key |
| `SimV3.Sim.Metabolize` | sim_v3/sim.go:222-228 | ageing and physiology as above; removal exactly when energy is <= 0 |
| `SimV3.Sim.MoveAgent` | sim_v3/sim.go:232-237 | the decoded, clamped move stays on the grid |
| `SimV3.Sim.FeedOnArrival` | sim_v3/sim.go:239-244 | the food under the agent's key is eaten and hunger reset; no counter is kept |
| `SimV3.Sim.CreateChild` | sim_v3/sim.go:291-306 | the child takes the next id, the first parent's cell and group, energy 100 and the given sex; its traits are the parents' means, then mutated; parents are [p1, p2]; age, experience, table, physiology and rates are the defaults |
| `SimV3.Sim.Enroll` | sim_v3/sim.go:282 | the child is stored under its fresh id, keeping ids below `nextID` |
| `SimV3.Sim.TryReproduce` | sim_v3/sim.go:263-289 | a no-op unless energy >= 50, age >= 30, repro >= 0.1, a suitable partner exists and the roll succeeds; then both parents lose 10 energy and count the birth, and the child is stored with parents [a, partner], the first parent's cell and group, energy 100, the given sex, the mutated mean traits and default physiology and rates |

## Left out

- The actor-critic policy of `sim/sim.go` (`chooseAction`, `computeFeaturesAndProbs`,
  `dot`, `updateActorCritic`, `randomMove`, `moveTowardsFood`): this is
  floating-point softmax, exp, log and sqrt numerics. The action it picks is a
  parameter of `MoveAgent`. Tick's reward sum in `sim/sim.go` only feeds this
  update and is left out with it.
- Tick as one composed method: each step is its own method (the tick counter's
  advance, spawn, metabolism and culling, move, feed, attack, merge, reproduce,
  update). In Go the choices
  of later agents depend on the state after earlier ones, in map order, so the
  loop over the agents itself is not modelled.
- Random number generation: every draw is a parameter with its range. Gaussian
  draws are unconstrained reals, or ints for the `int(NormFloat64()*0.5)` of the
  child's speed.
- Map iteration order: the "first eligible partner" of attack, merge and reproduce
  is any eligible candidate, passed in. So is the target of greedy ties.
- The success rolls of mating and merging in `sim/sim.go` and `sim_v2` (`Float64() <
  (repro+repro)/2`, `Float64() < 0.15 + 0.2*mean repro`): a candidate whose roll
  fails is passed over in Go. The model leaves that choice to the caller, so any
  eligible candidate, or none, may be the one that acts. In `sim_v3` the single
  roll after the partner is found is modelled (`roll` of `TryReproduce`).
- `SimV1.Sim.TryReproduce`: the child's actor-critic fields are left out with the
  policy. These are the averaged weight matrix with its jitter, the learning rate,
  `LastState`, `LastProbs`, `PolicyDir`, and the parents' `RMean += 5`.
- `SimV1.Sim.TryMerge`: the energy-weighted merge of the actor-critic weight matrices
  is left out with the policy.
- `sim_v3` `SetRandomFood` has an empty body: food spawning is always on there.
- `sim_v3`'s tick counter (`s.ticks++`, sim_v3/sim.go:207) and its `events` slice:
  nothing reads the counter and nothing writes the slice, so both are dropped.
- Event message texts (`fmt.Sprintf`). Events keep their type, tick, actor, sex and target.
- Snapshot building, `sendStateUpdate`, the non-blocking channel send, `Run`,
  `Stop` and the ticker: serialisation and scheduling.
- Every `sync.Mutex`: the model is sequential. In `sim_v3`, `UpdateState` holds the
  agent's lock while `adaptBehavior` takes it again, and `Tick` holds the world lock
  while `sendStateUpdate` takes it. Go's mutex is not reentrant,
  so those paths would block. The model runs them sequentially, as written.
- `sim_v3` social groups (`handleSocialInteractions`): group formation uses
  random group ids. The model keeps only what reaches the modelled rules: the
  `SocialGroupID` field read by the reward and inherited by a child, `ShareExperience`,
  and the fact (`NegativeStressBucket`) that the stress relief of its lines 518-519
  has no floor.
- `sim_v3` `findNearestFood`, `getNearbyFoods` and `getNearbyAgents` radii: the atan2
  direction and its distance buckets are parameters of `UpdateState`. The "within
  20" test of a mate is compared on squared distance (`Nearby`), as is the
  "within 10" test of the assessment (`Close`).
- `addRandomAgent` and the two random agents of each `NewSim`: pure random
  seeding. The constructors build the empty world.
- `main.go` (WebSocket, client registry, port probing) and `static/app.js`
  (rendering) are not part of this model.
- `SimV2.Agent.ChooseAction`: ties between maximal actions depend on map order.
  The contract allows any maximal action (or action 4 when nothing beats it), not
  the lowest index.
- Duplicates in `sim_v2`: its `AddFoodAt`, `SetRandomFood`, `tryAttack`,
  `distanceToNearestFood`, `foodAt`, `agentAt`, food spawn, metabolism, moves and
  feeding are line for line those of `sim/sim.go`. They are modelled once, in `SimV1`.
- `SimV2.Agent.UpdateQTable` requires the last state's row to exist. Go writes
  into that row, and assigning into a missing (nil) row panics.

## Code behaviour that differs from the documented contract

The model follows the code in each of these cases.

- `sim_v3` `AddFoodAt` checks neither the bounds nor an agent on the cell; only
  an existing food key refuses the request.
- `sim_v3` `addAgentAt` checks no bounds and clamps no trait. Its ids start at 0
  (`id := nextID; nextID++`). It keeps no birth counter, lineage map or event log.
- `sim_v3` feeding does not increment `ate`, and starvation records no death
  counter.
- On a merge, `lineage[a.ID]` is overwritten with the survivor's extended parent
  list, so a lineage entry is not immutable once written.
- In `sim_v2`, `getStateKey` gives "no food" direction code 8, the same code as
  food down and to the right.
- The `sim_v3` threat level is set by the last close agent with aggression above
  0.5, not the most threatening one.
- Stress lowered by the social rule can go below zero, and health can then rise.
