/** The game's mutable objects: the treasure objects whose `collected` flag is
    flipped in place, the AR container whose entities are rebuilt on every
    position update, and the global game state with the three operations
    that change them. Each method is proved against the value-level
    definitions of modules Hunt and Scene. */
module Game {
  import opened Hunt
  import opened Scene

  /** A treasure object (script.js:52-59); only `collected` ever changes. */
  class Treasure {
    const id: string
    const lat: real
    const lng: real
    var collected: bool
    const points: int
    const model: Model

    /** The object literal of script.js:52-59: `collected` starts false. */
    constructor (id: string, lat: real, lng: real, points: int, model: Model)
      ensures Record() == TreasureRecord(id, lat, lng, false, points, model)
    {
      this.id, this.lat, this.lng := id, lat, lng;
      this.collected := false;
      this.points, this.model := points, model;
    }

    function Record(): TreasureRecord
      reads this
    {
      TreasureRecord(id, lat, lng, collected, points, model)
    }
  }

  /** The `treasures-container` element: the entities currently in the scene. */
  class Container {
    var entities: seq<Entity>

    constructor ()
      ensures entities == []
    {
      entities := [];
    }
  }

  /** The global `gameState` object (script.js:2-8). */
  class GameState {
    var score: int
    var treasuresCollected: int
    var treasures: seq<Treasure>

    /** The initial state of script.js:2-8. */
    constructor ()
      ensures Abstract() == Ledger(0, 0, [])
      ensures Valid() && LedgerBalanced()
    {
      score, treasuresCollected, treasures := 0, 0, [];
    }

    /** The treasure objects' current contents, in list order. */
    ghost function Snapshot(): seq<TreasureRecord>
      reads this, treasures
    {
      seq(|treasures|, i reads this, treasures requires 0 <= i < |treasures| => treasures[i].Record())
    }

    ghost function Abstract(): Ledger
      reads this, treasures
    {
      Ledger(score, treasuresCollected, Snapshot())
    }

    /** The list holds distinct objects with distinct identifiers and point
        values from 1 to 10. */
    ghost predicate Valid()
      reads this, treasures
    {
      && (forall i, j :: 0 <= i < j < |treasures| ==> treasures[i] != treasures[j])
      && WellFormed(Snapshot())
    }

    /** Score and counter agree with the collected set. */
    ghost predicate LedgerBalanced()
      reads this, treasures
    {
      Balanced(Abstract())
    }

    /** generateTreasures (script.js:41-65): the list is replaced by five new
        treasure objects built from the draws; score and counter are left as
        they were, so the state is balanced afterwards only if both were
        zero. */
    method GenerateTreasures(centerLat: real, centerLng: real, draws: seq<Draw>)
      requires ValidDraws(draws)
      modifies this`treasures
      ensures Abstract() == Ledger(old(score), old(treasuresCollected), Generate(centerLat, centerLng, draws))
      ensures forall i :: 0 <= i < |treasures| ==> fresh(treasures[i])
      ensures Valid()
      ensures LedgerBalanced() <==> old(score) == 0 && old(treasuresCollected) == 0
    {
      treasures := [];
      for i := 0 to TreasureCount
        invariant |treasures| == i
        invariant forall j :: 0 <= j < i ==> fresh(treasures[j])
        invariant forall j, k :: 0 <= j < k < i ==> treasures[j] != treasures[k]
        invariant forall j :: 0 <= j < i ==>
                    treasures[j].Record() == NewTreasure(centerLat, centerLng, j, draws[j])
      {
        var d := draws[i];
        var t := new Treasure(
          TreasureId(i),
          centerLat + (d.latDraw - 0.5) * JitterDegrees,
          centerLng + (d.lngDraw - 0.5) * JitterDegrees,
          (d.pointsDraw * 10.0).Floor + 1,
          if i % 2 == 0 then Chest else Coin);
        treasures := treasures + [t];
      }
      assert Snapshot() == Generate(centerLat, centerLng, draws);
      GenerateShape(centerLat, centerLng, draws);
      GenerateBalancedIff(score, treasuresCollected, centerLat, centerLng, draws);
    }

    /** collectTreasure (script.js:193-219) on a listed treasure: it flips
        the treasure's flag, adds its points to the score and one to the
        counter whether or not it was already collected, removes its entity
        from the container, and reports whether the final message is
        scheduled. The state stays balanced when the treasure was not yet
        collected. */
    method CollectTreasure(t: Treasure, container: Container) returns (allFound: bool)
      requires Valid() && t in treasures
      modifies this`score, this`treasuresCollected, t, container
      ensures treasures == old(treasures)
      ensures forall i :: 0 <= i < |treasures| && treasures[i] == t ==>
                Abstract() == Collect(old(Abstract()), i)
      ensures allFound <==> AllFound(Abstract())
      ensures container.entities == RemoveById(old(container.entities), t.id)
      ensures Valid()
      ensures old(LedgerBalanced()) && !old(t.collected) ==> LedgerBalanced()
      ensures old(LedgerBalanced()) && !old(t.collected) ==> (allFound <==> AllCollected(Snapshot()))
    {
      ghost var i :| 0 <= i < |treasures| && treasures[i] == t;
      ghost var before := Abstract();
      t.collected := true;
      score := score + t.points;
      treasuresCollected := treasuresCollected + 1;
      container.entities := RemoveById(container.entities, t.id);
      allFound := treasuresCollected == |treasures|;

      assert Snapshot() == before.treasures[i := before.treasures[i].(collected := true)];
      assert Abstract() == Collect(before, i);
      forall j | 0 <= j < |treasures| && treasures[j] == t
        ensures Abstract() == Collect(before, j)
      {
        assert j == i;
      }
      if Balanced(before) && !before.treasures[i].collected {
        CollectPreservesBalance(before, i);
        AllFoundIff(Abstract());
      }
    }

    /** updateARContent (script.js:78-165) for one position update: the
        container is emptied and then holds exactly the entities of
        Scene.Render for the current treasures. DEBUG_MODE is the parameter
        debug; calculateDistance and calculateAngle from the player's position
        are the parameters distance and bearing. */
    method UpdateARContent(container: Container, debug: bool,
                           distance: (real, real) -> real, bearing: (real, real) -> real)
      modifies container
      ensures container.entities == Render(Snapshot(), debug, distance, bearing)
    {
      container.entities := [];
      ghost var ts := Snapshot();
      for i := 0 to |treasures|
        invariant container.entities == RenderUpTo(ts, i, debug, distance, bearing)
      {
        RenderStep(ts, i, debug, distance, bearing);
        var t := treasures[i];
        assert t.Record() == ts[i];
        if t.collected {
          continue;
        }
        var placement: Placement;
        if debug {
          placement := OnCircle(i as real / |treasures| as real);
        } else {
          var d := distance(t.lat, t.lng);
          if d <= VisibleRange {
            placement := AtRange(d, bearing(t.lat, t.lng));
          } else {
            continue;
          }
        }
        var arrow := debug || (!debug && distance(t.lat, t.lng) > ArrowRange);
        container.entities := container.entities + [Entity(t.id, t.model, placement, arrow)];
      }
    }
  }
}
