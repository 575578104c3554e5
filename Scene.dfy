/** What one pass of updateARContent puts into the treasures container
    (script.js:86-163): which treasures get an entity, in which order, where
    each is placed and whether it carries a direction arrow. The player's
    position is fixed for a pass, so distance and bearing are functions of the
    treasure's coordinates; their trigonometry is not modelled. */
module Scene {
  import opened Hunt

  /** Farther than this, a treasure is not shown outside debug mode
      (script.js:108). */
  const VisibleRange: real := 100.0

  /** Farther than this, a shown treasure gets an arrow (script.js:153). */
  const ArrowRange: real := 10.0

  /** Where an entity stands. In debug mode the treasure sits on a circle of
      radius 3 at the given fraction of a full turn (script.js:97-99);
      otherwise at the treasure's real distance and bearing (script.js:110-117). */
  datatype Placement = OnCircle(fraction: real) | AtRange(distance: real, bearing: real)

  /** One AR entity appended to the container (script.js:125-163). */
  datatype Entity = Entity(id: string, model: Model, placement: Placement, arrow: bool)

  /** Whether the forEach body reaches the entity creation for treasure t
      (script.js:91, 95, 108, 118-120). */
  predicate Shown(t: TreasureRecord, debug: bool, distance: real)
    ensures Shown(t, debug, distance) <==> !t.collected && (debug || distance <= VisibleRange)
  {
    if t.collected then false
    else if debug then true
    else distance <= VisibleRange
  }

  /** The arrow condition of script.js:153, as written. */
  predicate HasArrow(debug: bool, distance: real)
    ensures HasArrow(debug, distance) <==> debug || distance > ArrowRange
  {
    debug || (!debug && distance > ArrowRange)
  }

  /** The entity the pass builds for the treasure at index i. */
  function EntityFor(ts: seq<TreasureRecord>, i: nat, debug: bool,
                     distance: (real, real) -> real, bearing: (real, real) -> real): (e: Entity)
    requires i < |ts|
    ensures e.id == ts[i].id && e.model == ts[i].model
    ensures debug ==> e.placement == OnCircle(i as real / |ts| as real) && e.arrow
    ensures !debug ==> var d := distance(ts[i].lat, ts[i].lng);
      e.placement == AtRange(d, bearing(ts[i].lat, ts[i].lng)) && (e.arrow <==> d > ArrowRange)
  {
    var t := ts[i];
    var d := distance(t.lat, t.lng);
    Entity(
      t.id,
      t.model,
      if debug then OnCircle(i as real / |ts| as real) else AtRange(d, bearing(t.lat, t.lng)),
      HasArrow(debug, d))
  }

  /** The indices below n whose treasure gets an entity: strictly increasing
      (list order) and holding exactly the shown ones. */
  function ShownIn(ts: seq<TreasureRecord>, n: nat, debug: bool, distance: (real, real) -> real): (s: seq<nat>)
    requires n <= |ts|
    ensures |s| <= n
    ensures forall k :: 0 <= k < |s| ==> s[k] < n
    ensures forall k, m :: 0 <= k < m < |s| ==> s[k] < s[m]
    ensures forall i :: 0 <= i < n ==> (i in s <==> Shown(ts[i], debug, distance(ts[i].lat, ts[i].lng)))
  {
    if n == 0 then []
    else
      var t := ts[n - 1];
      ShownIn(ts, n - 1, debug, distance)
        + (if Shown(t, debug, distance(t.lat, t.lng)) then [n - 1] else [])
  }

  /** The container's contents after the first n iterations of the pass. */
  function RenderUpTo(ts: seq<TreasureRecord>, n: nat, debug: bool,
                      distance: (real, real) -> real, bearing: (real, real) -> real): seq<Entity>
    requires n <= |ts|
  {
    var s := ShownIn(ts, n, debug, distance);
    seq(|s|, k requires 0 <= k < |s| => EntityFor(ts, s[k], debug, distance, bearing))
  }

  /** The container's contents after a whole pass; the pass starts from an
      emptied container (script.js:86). */
  function Render(ts: seq<TreasureRecord>, debug: bool,
                  distance: (real, real) -> real, bearing: (real, real) -> real): (r: seq<Entity>)
    ensures |r| <= |ts|
    ensures DistinctIds(ts) ==> DistinctEntityIds(r)
  {
    RenderUpTo(ts, |ts|, debug, distance, bearing)
  }

  /** One more iteration appends at most the entity of the treasure at
      index n. */
  lemma RenderStep(ts: seq<TreasureRecord>, n: nat, debug: bool,
                   distance: (real, real) -> real, bearing: (real, real) -> real)
    requires n < |ts|
    ensures RenderUpTo(ts, n + 1, debug, distance, bearing)
         == RenderUpTo(ts, n, debug, distance, bearing)
            + (if Shown(ts[n], debug, distance(ts[n].lat, ts[n].lng))
               then [EntityFor(ts, n, debug, distance, bearing)] else [])
  {
  }

  /** Whether some entity in es carries the identifier id. */
  predicate Rendered(es: seq<Entity>, id: string)
  {
    exists k :: 0 <= k < |es| && es[k].id == id
  }

  /** The pass is an exact filter of the list: on a list with distinct
      identifiers, a treasure's identifier is on an entity exactly when the
      treasure is shown, and every entity carries the identifier, model and
      arrow of a shown treasure. */
  lemma RenderExact(ts: seq<TreasureRecord>, debug: bool,
                    distance: (real, real) -> real, bearing: (real, real) -> real)
    requires DistinctIds(ts)
    ensures var r := Render(ts, debug, distance, bearing);
      && (forall i :: 0 <= i < |ts| ==>
            (Rendered(r, ts[i].id) <==> Shown(ts[i], debug, distance(ts[i].lat, ts[i].lng))))
      && (forall k :: 0 <= k < |r| ==>
            exists i :: 0 <= i < |ts| && Shown(ts[i], debug, distance(ts[i].lat, ts[i].lng))
                        && r[k] == EntityFor(ts, i, debug, distance, bearing))
  {
    var r := Render(ts, debug, distance, bearing);
    var s := ShownIn(ts, |ts|, debug, distance);
    forall i | 0 <= i < |ts|
      ensures Rendered(r, ts[i].id) <==> Shown(ts[i], debug, distance(ts[i].lat, ts[i].lng))
    {
      if Rendered(r, ts[i].id) {
        var k :| 0 <= k < |r| && r[k].id == ts[i].id;
        assert r[k] == EntityFor(ts, s[k], debug, distance, bearing);
        assert s[k] == i;
      }
      if Shown(ts[i], debug, distance(ts[i].lat, ts[i].lng)) {
        var k :| 0 <= k < |s| && s[k] == i;
        assert r[k].id == ts[i].id;
      }
    }
    forall k | 0 <= k < |r|
      ensures exists i :: 0 <= i < |ts| && Shown(ts[i], debug, distance(ts[i].lat, ts[i].lng))
                          && r[k] == EntityFor(ts, i, debug, distance, bearing)
    {
      var i := s[k];
      assert i in s && i < |ts|;
      assert r[k] == EntityFor(ts, i, debug, distance, bearing);
    }
    assert forall k :: 0 <= k < |r| ==>
            exists i :: 0 <= i < |ts| && Shown(ts[i], debug, distance(ts[i].lat, ts[i].lng))
                        && r[k] == EntityFor(ts, i, debug, distance, bearing);
  }

  /** When every treasure is shown, the shown indices are all of them, in
      order. */
  lemma {:induction false} ShownInAll(ts: seq<TreasureRecord>, n: nat, debug: bool, distance: (real, real) -> real)
    requires n <= |ts|
    requires forall i :: 0 <= i < n ==> Shown(ts[i], debug, distance(ts[i].lat, ts[i].lng))
    ensures var s := ShownIn(ts, n, debug, distance);
      |s| == n && forall k :: 0 <= k < n ==> s[k] == k
  {
    if n > 0 {
      ShownInAll(ts, n - 1, debug, distance);
    }
  }

  /** In debug mode every uncollected treasure is shown, with an arrow, on
      the circle at angle fraction index/length of the full list. */
  lemma DebugShowsAllUncollected(ts: seq<TreasureRecord>,
                                 distance: (real, real) -> real, bearing: (real, real) -> real)
    requires DistinctIds(ts)
    ensures var r := Render(ts, true, distance, bearing);
            var s := ShownIn(ts, |ts|, true, distance);
      && (forall i :: 0 <= i < |ts| ==> (Rendered(r, ts[i].id) <==> !ts[i].collected))
      && (forall k :: 0 <= k < |r| ==>
            && !ts[s[k]].collected
            && r[k] == Entity(ts[s[k]].id, ts[s[k]].model, OnCircle(s[k] as real / |ts| as real), true))
  {
    RenderExact(ts, true, distance, bearing);
  }

  /** Outside debug mode a treasure is shown exactly when it is uncollected
      and at most 100 away; a shown one stands at its real distance and
      bearing and carries an arrow exactly when it is farther than 10. */
  lemma NonDebugSelection(ts: seq<TreasureRecord>,
                          distance: (real, real) -> real, bearing: (real, real) -> real)
    requires DistinctIds(ts)
    ensures var r := Render(ts, false, distance, bearing);
      forall i :: 0 <= i < |ts| ==>
        var d := distance(ts[i].lat, ts[i].lng);
        && (Rendered(r, ts[i].id) <==> !ts[i].collected && d <= VisibleRange)
        && forall k :: 0 <= k < |r| && r[k].id == ts[i].id ==>
             r[k] == Entity(ts[i].id, ts[i].model, AtRange(d, bearing(ts[i].lat, ts[i].lng)), d > ArrowRange)
  {
    var r := Render(ts, false, distance, bearing);
    var s := ShownIn(ts, |ts|, false, distance);
    RenderExact(ts, false, distance, bearing);
    forall i, k | 0 <= i < |ts| && 0 <= k < |r| && r[k].id == ts[i].id
      ensures s[k] == i
    {
      assert r[k] == EntityFor(ts, s[k], false, distance, bearing);
    }
  }

  /** A fresh batch of five in debug mode: five entities at angle fractions
      0, 1/5, 2/5, 3/5 and 4/5 of a turn, in list order, all with arrows. */
  lemma DebugFreshBatch(ts: seq<TreasureRecord>,
                        distance: (real, real) -> real, bearing: (real, real) -> real)
    requires |ts| == TreasureCount
    requires forall i :: 0 <= i < |ts| ==> !ts[i].collected
    ensures var r := Render(ts, true, distance, bearing);
      && |r| == 5
      && r[0] == Entity(ts[0].id, ts[0].model, OnCircle(0.0), true)
      && r[1] == Entity(ts[1].id, ts[1].model, OnCircle(0.2), true)
      && r[2] == Entity(ts[2].id, ts[2].model, OnCircle(0.4), true)
      && r[3] == Entity(ts[3].id, ts[3].model, OnCircle(0.6), true)
      && r[4] == Entity(ts[4].id, ts[4].model, OnCircle(0.8), true)
  {
    ShownInAll(ts, |ts|, true, distance);
  }

  /** The index of the first entity carrying id, or |es| when none does:
      the element document.getElementById finds (script.js:208). */
  function FirstWithId(es: seq<Entity>, id: string): (k: nat)
    ensures k <= |es|
    ensures k < |es| ==> es[k].id == id
    ensures forall j :: 0 <= j < k ==> es[j].id != id
    ensures k == |es| <==> !Rendered(es, id)
  {
    if es == [] then 0
    else if es[0].id == id then 0
    else
      var k := FirstWithId(es[1..], id);
      assert forall j :: 1 <= j < |es| ==> es[j] == es[1..][j - 1];
      k + 1
  }

  /** Removing the entity that document.getElementById finds for id, the
      first one carrying it, from its parent (script.js:208-211); nothing
      happens when there is none. The other entities keep their order. */
  function RemoveById(es: seq<Entity>, id: string): (r: seq<Entity>)
    ensures !Rendered(es, id) ==> r == es
    ensures Rendered(es, id) ==>
      exists k :: && 0 <= k < |es| && es[k].id == id
                  && (forall j :: 0 <= j < k ==> es[j].id != id)
                  && r == es[..k] + es[k + 1..]
    ensures |r| == if Rendered(es, id) then |es| - 1 else |es|
    ensures forall e :: e in es && e.id != id ==> e in r
    ensures forall e :: e in r ==> e in es
  {
    var k := FirstWithId(es, id);
    if k == |es| then es
    else
      var r := es[..k] + es[k + 1..];
      assert forall e :: e in es && e.id != id ==> e in r by {
        forall e | e in es && e.id != id ensures e in r {
          var j :| 0 <= j < |es| && es[j] == e;
          if j < k { assert r[j] == e; } else { assert r[j - 1] == e; }
        }
      }
      assert forall e :: e in r ==> e in es by {
        forall e | e in r ensures e in es {
          var j :| 0 <= j < |r| && r[j] == e;
          if j < k { assert es[j] == e; } else { assert es[j + 1] == e; }
        }
      }
      r
  }

  predicate DistinctEntityIds(es: seq<Entity>)
  {
    forall k, m :: 0 <= k < m < |es| ==> es[k].id != es[m].id
  }

  /** When the container's entities carry distinct identifiers, removal
      leaves no entity with that identifier and keeps every other one. */
  lemma {:induction false} RemoveByIdExact(es: seq<Entity>, id: string)
    requires DistinctEntityIds(es)
    ensures forall e :: e in RemoveById(es, id) <==> e in es && e.id != id
  {
  }
}
