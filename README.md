# AR treasure hunt: the treasure ledger

This project models the game logic of a browser AR treasure hunt (`script.js`).
The player's position seeds a batch of five treasures. Each position update
rebuilds the AR entities for the treasures still to be found. Tapping an
entity collects its treasure, which adds its points to the score and counts
towards the final "all treasures found" message.

Three modules:

- `Hunt` (Hunt.dfy) describes the ledger as values. It covers the treasure
  records and their `treasure-<i>` identifiers, and the generator with its
  `Math.random()` draws passed in as parameters. It also covers the collection
  step, the invariant that the score and counter match the collected set, and
  whole sessions of collections.
- `Scene` (Scene.dfy) describes what one position update puts into the
  treasures container. It fixes which treasures get an entity, in what order,
  where each is placed (circle fraction or distance and bearing), and whether
  each gets an arrow. It also describes removing one entity by its identifier.
- `Game` (Game.dfy) holds the source's mutable objects as classes:
  `Treasure`, whose `collected` flag is flipped in place, `Container`, and
  `GameState`. `GameState` has the methods `GenerateTreasures`,
  `CollectTreasure` and `UpdateARContent`. Each method's postcondition ties
  the new state to the `Hunt`/`Scene` definitions, and the lemmas there carry
  the properties.

`DEBUG_MODE` (a fixed `true` at script.js:11) is the parameter `debug`. For one
pass the player's position is fixed, so `calculateDistance` and
`calculateAngle` are the parameters `distance` and `bearing`. Each is a
function of the treasure's latitude and longitude.

`collectTreasure` has no guard against a treasure that is already collected
(script.js:193-199), so a second call counts it twice. `CollectTreasure` is
modelled without the guard.
`Hunt.DoubleCollectUnbalances` shows that a second collection breaks the
ledger invariant. `Hunt.CollectPreservesBalance` shows that the invariant
holds when the treasure was not yet collected. In the user interface, a
second collection cannot happen: the entity is removed in the same click
handler, and the next pass skips collected treasures.

## Model

| member | source | states |
|---|---|---|
| Hunt.NatToString | script.js:53 | the decimal printing of `${i}`: one character exactly for i below 10 |
| Hunt.TreasureId | script.js:53 | the id is `treasure-` followed by the decimal printing of the loop index |
| Hunt.NatToStringInjective | script.js:53 | distinct numbers print as distinct decimal strings |
| Hunt.TreasureIdInjective | script.js:53 | `treasure-i` and `treasure-j` are equal only when i = j |
| Hunt.Points | script.js:57 | `Math.floor(r*10)+1` is between 1 and 10 for every draw r in [0,1) |
| Hunt.Jitter | script.js:48-55 | a jittered coordinate lies within 0.0001 degrees of the centre (lower bound inclusive, upper exclusive) |
| Hunt.ModelFor | script.js:58 | the model kind is chest exactly for even indices |
| Hunt.NewTreasure | script.js:48-59 | the record built at index i has id `treasure-i`, is uncollected, has 1..10 points, is a chest exactly when i is even, and lies in the jitter square |
| Hunt.Generate | script.js:43-62 | the list is a new list of exactly 5 records, record i with id `treasure-i` and uncollected |
| Hunt.GenerateShape | script.js:41-65 | a generated batch has exactly 5 records; record i has id `treasure-i`, is uncollected, has 1..10 points, is a chest exactly when i is even, lies in the jitter square; ids are pairwise distinct |
| Hunt.NothingCollectedSums | script.js:56 | a list with nothing collected has collected sum 0 and collected count 0 |
| Hunt.GenerateBalancedIff | script.js:41-65 | after generation the ledger is balanced exactly when score and counter were both 0 (generation does not reset them) |
| Hunt.CountCollected | script.js:199 | the number of collected treasures never exceeds the list length |
| Hunt.Collect | script.js:195-199 | collecting index i adds its points to the score and 1 to the counter, marks record i collected, and leaves every other record and the length unchanged, with no guard |
| Hunt.AllFound | script.js:214 | the final-message test: the counter equals the list length |
| Hunt.MarkFresh | script.js:195-199 | marking an uncollected treasure adds exactly its points to the collected sum and 1 to the collected count |
| Hunt.CollectPreservesBalance | script.js:193-199 | collecting an uncollected treasure keeps score = sum of collected points and counter = number collected; other records and well-formedness are unchanged |
| Hunt.DoubleCollectUnbalances | script.js:195-199 | collecting an already-collected treasure leaves the list as it was but bumps the counter, so the ledger is no longer balanced |
| Hunt.CountAllIff | script.js:214 | the collected count equals the list length exactly when every treasure is collected |
| Hunt.AllFoundIff | script.js:214 | on a balanced ledger, the final-message test holds exactly when all treasures are collected |
| Hunt.SessionBalanced | script.js:193-199 | after any sequence of collections of not-yet-collected treasures the ledger is balanced and the counter is at most the list length |
| Hunt.FinalMessageOnce | script.js:214-218 | in such a sequence the final message is scheduled on exactly one call: the last one, and only if it leaves every treasure collected |
| Scene.Shown | script.js:91-120 | a treasure gets an entity exactly when it is uncollected and either debug mode is on or its distance is at most 100 |
| Scene.HasArrow | script.js:153 | the arrow test holds exactly when debug mode is on or the distance exceeds 10; the `!DEBUG_MODE &&` conjunct is redundant |
| Scene.EntityFor | script.js:125-160 | the entity carries the treasure's id and model; in debug mode it sits at fraction index/length with an arrow, otherwise at the treasure's distance and bearing with an arrow exactly when the distance exceeds 10 |
| Scene.ShownIn | script.js:89-122 | the indices that get an entity are strictly increasing (list order) and are exactly the shown ones: uncollected, and in debug mode or at most 100 away |
| Scene.RenderExact | script.js:86-163 | on a list with distinct ids, a treasure's id is on an entity exactly when it is shown, and every entity is the entity of some shown treasure |
| Scene.Render | script.js:86-163 | a pass creates at most one entity per treasure, and entities with distinct ids when the list's ids are distinct |
| Scene.DebugShowsAllUncollected | script.js:95-99 | in debug mode, exactly the uncollected treasures get entities, each on the circle at fraction index/length of the full list, each with an arrow |
| Scene.NonDebugSelection | script.js:100-121 | outside debug mode, a treasure gets an entity exactly when it is uncollected and at most 100 away; the entity is at its distance and bearing and has an arrow exactly when the distance exceeds 10 |
| Scene.DebugFreshBatch | script.js:95-99 | five uncollected treasures in debug mode give five entities at fractions 0, 1/5, 2/5, 3/5, 4/5 of a turn, in list order, all with arrows |
| Scene.FirstWithId | script.js:208 | the index found is the first entity carrying the id, or the length when none does |
| Scene.RemoveById | script.js:207-211 | when some entity has the id, exactly the first such entity is removed and the others keep their order; otherwise the list is unchanged |
| Scene.RemoveByIdExact | script.js:207-211 | when entity ids are distinct, the entities left are exactly those with another id |
| Game.Treasure.constructor | script.js:52-59 | a new treasure object holds the given fields and `collected = false` |
| Game.GameState.constructor | script.js:2-8 | the initial state has score 0, counter 0 and no treasures, and is balanced |
| Game.GameState.GenerateTreasures | script.js:41-65 | the list is replaced, not appended to, by five fresh objects whose contents are `Hunt.Generate` of the draws; score and counter are unchanged; the list is well formed |
| Game.GameState.CollectTreasure | script.js:193-219 | the treasure is marked collected, the score grows by its points and the counter by 1, no other treasure changes, its entity is removed, and the returned flag is the final-message test; balance is kept when the treasure was uncollected |
| Game.GameState.UpdateARContent | script.js:78-165 | the container is emptied and then holds exactly `Scene.Render` of the current treasures |

## Left out

- Geolocation (`initGame`'s `getCurrentPosition`, `startLocationTracking`'s `watchPosition`, their error callbacks): browser I/O and asynchronous callbacks. A position update is a call of `UpdateARContent`.
- The bodies of `calculateDistance` and `calculateAngle` (haversine and bearing): floating-point trigonometry. They are the parameters `distance` and `bearing`.
- UpdateARContent: records the circle fraction, or the distance and bearing, instead of the `x`/`z` position computed by sine and cosine (script.js:98-99, 116-117), because that is floating-point trigonometry.
- Floating point in general: coordinates, jitter and draws are exact reals, so IEEE rounding is not modelled. `Math.floor` of a non-negative number is Dafny's `Floor`.
- `Math.random` itself: each loop iteration's three draws (latitude offset, longitude offset, points) are a `Draw` value in [0,1).
- Entity markup and DOM attributes (the chest and coin primitives, `class`, `cursor-listener`, the click listener, the arrow cone), `updateScoreUI`, and the `cursor-listener` component: UI glue over libraries that are not part of this model. The entity keeps the id, model kind, placement and arrow flag.
- The `console.log` of the generated list (script.js:64) and the `console.error` calls: logging only.
- `showMessage` and the two-second `setTimeout` in `collectTreasure`: timer-driven UI. `CollectTreasure` returns whether the final message is scheduled. The message reads the score when the timer fires, and that is not modelled.
- CollectTreasure: requires the object invariant and that the treasure is in the current list. The only caller is the click handler of an entity built from that list, and the list is generated once before tracking starts.
