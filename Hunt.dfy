/** The treasure ledger of the AR treasure hunt, as values: treasure records,
    their identifiers, the generator that creates one batch of them, and the
    collection step with the score and counter it keeps. The classes in
    module Game are proved against these definitions. */
module Hunt {

  /** Number of treasures one call of the generator creates (script.js:46). */
  const TreasureCount: nat := 5

  /** Side of the square, in degrees, that a treasure is jittered within
      around the player (script.js:48-49). */
  const JitterDegrees: real := 0.0002

  /** The two visual kinds of a treasure (script.js:58). */
  datatype Model = Chest | Coin

  /** One treasure object of script.js:52-59. */
  datatype TreasureRecord = TreasureRecord(
    id: string,
    lat: real,
    lng: real,
    collected: bool,
    points: int,
    model: Model)

  /** The global game state of script.js:2-8. */
  datatype Ledger = Ledger(score: int, treasuresCollected: int, treasures: seq<TreasureRecord>)

  // ---------------------------------------------------------------------
  // Identifiers: `treasure-${i}`

  function DigitChar(d: nat): char
    requires d < 10
  {
    ('0' as int + d) as char
  }

  /** Decimal rendering of a natural number, as a JavaScript template
      literal prints a non-negative integer. */
  function NatToString(n: nat): (s: string)
    ensures |s| == 1 <==> n < 10
    ensures |s| >= 1
  {
    if n < 10 then [DigitChar(n)] else NatToString(n / 10) + [DigitChar(n % 10)]
  }

  /** Distinct numbers print differently. */
  lemma {:induction false} NatToStringInjective(a: nat, b: nat)
    requires NatToString(a) == NatToString(b)
    ensures a == b
  {
    var sa, sb := NatToString(a), NatToString(b);
    if a < 10 && b < 10 {
      assert sa[0] == DigitChar(a) && sb[0] == DigitChar(b);
      assert (DigitChar(a) as int) == '0' as int + a;
      assert (DigitChar(b) as int) == '0' as int + b;
    } else {
      assert a >= 10 && b >= 10;
      assert sa[..|sa| - 1] == NatToString(a / 10);
      assert sb[..|sb| - 1] == NatToString(b / 10);
      NatToStringInjective(a / 10, b / 10);
      assert sa[|sa| - 1] == DigitChar(a % 10);
      assert sb[|sb| - 1] == DigitChar(b % 10);
      assert (DigitChar(a % 10) as int) == '0' as int + a % 10;
      assert (DigitChar(b % 10) as int) == '0' as int + b % 10;
    }
  }

  /** The identifier of the treasure created at loop index i (script.js:53). */
  function TreasureId(i: nat): (r: string)
    ensures |r| == 9 + |NatToString(i)| && r[..9] == "treasure-" && r[9..] == NatToString(i)
  {
    "treasure-" + NatToString(i)
  }

  /** Two indices give the same identifier only if they are equal. */
  lemma TreasureIdInjective(i: nat, j: nat)
    requires TreasureId(i) == TreasureId(j)
    ensures i == j
  {
    assert TreasureId(i)[9..] == NatToString(i);
    assert TreasureId(j)[9..] == NatToString(j);
    NatToStringInjective(i, j);
  }

  // ---------------------------------------------------------------------
  // Well-formedness of a treasure list

  predicate DistinctIds(ts: seq<TreasureRecord>)
  {
    forall i, j :: 0 <= i < j < |ts| ==> ts[i].id != ts[j].id
  }

  predicate PointsInRange(ts: seq<TreasureRecord>)
  {
    forall i :: 0 <= i < |ts| ==> 1 <= ts[i].points <= 10
  }

  predicate WellFormed(ts: seq<TreasureRecord>)
  {
    DistinctIds(ts) && PointsInRange(ts)
  }

  // ---------------------------------------------------------------------
  // Generation (script.js:41-65), with the Math.random() draws as inputs

  predicate InUnit(r: real)
  {
    0.0 <= r < 1.0
  }

  /** The three Math.random() draws one loop iteration makes, in order:
      latitude offset, longitude offset, points. */
  datatype Draw = Draw(latDraw: real, lngDraw: real, pointsDraw: real)

  predicate ValidDraw(d: Draw)
  {
    InUnit(d.latDraw) && InUnit(d.lngDraw) && InUnit(d.pointsDraw)
  }

  predicate ValidDraws(draws: seq<Draw>)
  {
    |draws| == TreasureCount && forall i :: 0 <= i < |draws| ==> ValidDraw(draws[i])
  }

  /** Math.floor(r * 10) + 1 (script.js:57): always a point value from 1 to 10. */
  function Points(r: real): (p: int)
    requires InUnit(r)
    ensures 1 <= p <= 10
  {
    (r * 10.0).Floor + 1
  }

  /** center + (r - 0.5) * 0.0002 (script.js:48-49, 54-55): the treasure lies
      within half the jitter square of the centre. */
  function Jitter(center: real, r: real): (x: real)
    requires InUnit(r)
    ensures center - JitterDegrees / 2.0 <= x < center + JitterDegrees / 2.0
  {
    center + (r - 0.5) * JitterDegrees
  }

  /** i % 2 === 0 ? 'chest' : 'coin' (script.js:58). */
  function ModelFor(i: nat): (m: Model)
    ensures m == Chest <==> i % 2 == 0
  {
    if i % 2 == 0 then Chest else Coin
  }

  /** The treasure object the loop body builds at index i (script.js:48-59). */
  function NewTreasure(centerLat: real, centerLng: real, i: nat, d: Draw): (t: TreasureRecord)
    requires ValidDraw(d)
    ensures t.id == TreasureId(i) && !t.collected && 1 <= t.points <= 10
    ensures t.model == Chest <==> i % 2 == 0
    ensures centerLat - JitterDegrees / 2.0 <= t.lat < centerLat + JitterDegrees / 2.0
    ensures centerLng - JitterDegrees / 2.0 <= t.lng < centerLng + JitterDegrees / 2.0
  {
    TreasureRecord(
      TreasureId(i),
      Jitter(centerLat, d.latDraw),
      Jitter(centerLng, d.lngDraw),
      false,
      Points(d.pointsDraw),
      ModelFor(i))
  }

  /** The list generateTreasures leaves behind: a fresh list, one record per
      loop index, in index order (script.js:43-62). */
  function Generate(centerLat: real, centerLng: real, draws: seq<Draw>): (ts: seq<TreasureRecord>)
    requires ValidDraws(draws)
    ensures |ts| == TreasureCount
    ensures forall i :: 0 <= i < |ts| ==> ts[i].id == TreasureId(i) && !ts[i].collected
  {
    seq(|draws|, i requires 0 <= i < |draws| => NewTreasure(centerLat, centerLng, i, draws[i]))
  }

  /** A generated batch has exactly five records; record i is named
      `treasure-i`, is not collected, is worth 1 to 10 points, is a chest
      exactly when i is even, lies within the jitter square around the centre;
      and the identifiers of the batch are pairwise distinct. */
  lemma GenerateShape(centerLat: real, centerLng: real, draws: seq<Draw>)
    requires ValidDraws(draws)
    ensures var ts := Generate(centerLat, centerLng, draws);
      && |ts| == TreasureCount
      && (forall i :: 0 <= i < |ts| ==>
            && ts[i].id == TreasureId(i)
            && !ts[i].collected
            && 1 <= ts[i].points <= 10
            && (ts[i].model == Chest <==> i % 2 == 0)
            && centerLat - JitterDegrees / 2.0 <= ts[i].lat < centerLat + JitterDegrees / 2.0
            && centerLng - JitterDegrees / 2.0 <= ts[i].lng < centerLng + JitterDegrees / 2.0)
      && WellFormed(ts)
  {
  }

  // ---------------------------------------------------------------------
  // The collected set and the two counters

  /** Sum of the points of the collected treasures. */
  function SumCollected(ts: seq<TreasureRecord>): int
  {
    if ts == [] then 0
    else (if ts[0].collected then ts[0].points else 0) + SumCollected(ts[1..])
  }

  /** Number of collected treasures; never more than the list holds. */
  function CountCollected(ts: seq<TreasureRecord>): (n: nat)
    ensures n <= |ts|
  {
    if ts == [] then 0
    else (if ts[0].collected then 1 else 0) + CountCollected(ts[1..])
  }

  /** The invariant the game state is meant to keep: the score is the sum of
      the collected points and the counter is the number of collected
      treasures. */
  predicate Balanced(l: Ledger)
  {
    l.score == SumCollected(l.treasures) && l.treasuresCollected == CountCollected(l.treasures)
  }

  /** The check of script.js:214 that schedules the final message. */
  predicate AllFound(l: Ledger)
  {
    l.treasuresCollected == |l.treasures|
  }

  predicate AllCollected(ts: seq<TreasureRecord>)
  {
    forall j :: 0 <= j < |ts| ==> ts[j].collected
  }

  /** collectTreasure on the treasure at index i (script.js:195-199), with no
      guard against a treasure that is already collected. */
  function Collect(l: Ledger, i: nat): (r: Ledger)
    requires i < |l.treasures|
    ensures r.score == l.score + l.treasures[i].points
    ensures r.treasuresCollected == l.treasuresCollected + 1
    ensures |r.treasures| == |l.treasures| && r.treasures[i].collected
    ensures r.treasures[i] == l.treasures[i].(collected := true)
    ensures forall j :: 0 <= j < |l.treasures| && j != i ==> r.treasures[j] == l.treasures[j]
  {
    var t := l.treasures[i];
    Ledger(l.score + t.points, l.treasuresCollected + 1, l.treasures[i := t.(collected := true)])
  }

  /** Marking an uncollected treasure adds its points to the collected sum and
      one to the collected count. */
  lemma {:induction false} MarkFresh(ts: seq<TreasureRecord>, i: nat)
    requires i < |ts| && !ts[i].collected
    ensures SumCollected(ts[i := ts[i].(collected := true)]) == SumCollected(ts) + ts[i].points
    ensures CountCollected(ts[i := ts[i].(collected := true)]) == CountCollected(ts) + 1
  {
    var us := ts[i := ts[i].(collected := true)];
    if i > 0 {
      assert us[1..] == ts[1..][i - 1 := ts[i].(collected := true)];
      MarkFresh(ts[1..], i - 1);
    } else {
      assert us[1..] == ts[1..];
    }
  }

  /** Collecting an uncollected treasure keeps the ledger balanced, changes no
      other record, and keeps the list well formed. */
  lemma CollectPreservesBalance(l: Ledger, i: nat)
    requires i < |l.treasures| && !l.treasures[i].collected
    requires Balanced(l)
    ensures Balanced(Collect(l, i))
    ensures |Collect(l, i).treasures| == |l.treasures|
    ensures forall j :: 0 <= j < |l.treasures| && j != i ==> Collect(l, i).treasures[j] == l.treasures[j]
    ensures WellFormed(l.treasures) ==> WellFormed(Collect(l, i).treasures)
  {
    MarkFresh(l.treasures, i);
  }

  /** Without the guard, collecting a treasure a second time bumps the counter
      while the collected set stays the same: the ledger is no longer
      balanced. */
  lemma DoubleCollectUnbalances(l: Ledger, i: nat)
    requires i < |l.treasures| && l.treasures[i].collected
    requires Balanced(l)
    ensures Collect(l, i).treasures == l.treasures
    ensures Collect(l, i).treasuresCollected == CountCollected(l.treasures) + 1
    ensures !Balanced(Collect(l, i))
  {
  }

  /** The counter equals the list length exactly when every treasure is
      collected. */
  lemma {:induction false} CountAllIff(ts: seq<TreasureRecord>)
    ensures CountCollected(ts) == |ts| <==> AllCollected(ts)
  {
    if ts != [] {
      CountAllIff(ts[1..]);
      if AllCollected(ts) {
        assert AllCollected(ts[1..]) by {
          forall j | 0 <= j < |ts| - 1 ensures ts[1..][j].collected {
            assert ts[1..][j] == ts[j + 1];
          }
        }
      }
      if CountCollected(ts) == |ts| {
        assert ts[0].collected;
        forall j | 0 <= j < |ts| ensures ts[j].collected {
          if j > 0 { assert ts[j] == ts[1..][j - 1]; }
        }
      }
    }
  }

  /** On a balanced ledger the final-message test of script.js:214 holds
      exactly when every treasure has been collected. */
  lemma AllFoundIff(l: Ledger)
    requires Balanced(l)
    ensures AllFound(l) <==> AllCollected(l.treasures)
  {
    CountAllIff(l.treasures);
  }

  /** A list with nothing collected sums to 0 and counts 0. */
  lemma {:induction false} NothingCollectedSums(ts: seq<TreasureRecord>)
    requires forall j :: 0 <= j < |ts| ==> !ts[j].collected
    ensures SumCollected(ts) == 0 && CountCollected(ts) == 0
  {
    if ts != [] {
      assert forall j :: 0 <= j < |ts| - 1 ==> ts[1..][j] == ts[j + 1];
      NothingCollectedSums(ts[1..]);
    }
  }

  /** A freshly generated batch is balanced exactly when score and counter
      are both zero; generateTreasures does not reset them. */
  lemma GenerateBalancedIff(score: int, treasuresCollected: int, centerLat: real, centerLng: real, draws: seq<Draw>)
    requires ValidDraws(draws)
    ensures Balanced(Ledger(score, treasuresCollected, Generate(centerLat, centerLng, draws)))
        <==> score == 0 && treasuresCollected == 0
  {
    GenerateShape(centerLat, centerLng, draws);
    NothingCollectedSums(Generate(centerLat, centerLng, draws));
  }

  // ---------------------------------------------------------------------
  // A session: any sequence of collections

  predicate PicksInRange(l: Ledger, picks: seq<nat>)
  {
    forall k :: 0 <= k < |picks| ==> picks[k] < |l.treasures|
  }

  /** The ledger after collecting the treasures at the given indices, in
      order. */
  function Replay(l: Ledger, picks: seq<nat>): Ledger
    requires PicksInRange(l, picks)
    decreases |picks|
  {
    if picks == [] then l else Replay(Collect(l, picks[0]), picks[1..])
  }

  /** For each call, whether script.js:214 schedules the final message. */
  function Announcements(l: Ledger, picks: seq<nat>): seq<bool>
    requires PicksInRange(l, picks)
    decreases |picks|
  {
    if picks == [] then []
    else var next := Collect(l, picks[0]); [AllFound(next)] + Announcements(next, picks[1..])
  }

  /** Every call collects a treasure that is not yet collected at that time. */
  predicate FreshPicks(l: Ledger, picks: seq<nat>)
    decreases |picks|
  {
    picks == []
    || (&& picks[0] < |l.treasures|
        && !l.treasures[picks[0]].collected
        && FreshPicks(Collect(l, picks[0]), picks[1..]))
  }

  lemma {:induction false} FreshPicksInRange(l: Ledger, picks: seq<nat>)
    requires FreshPicks(l, picks)
    ensures PicksInRange(l, picks)
    decreases |picks|
  {
    if picks != [] {
      FreshPicksInRange(Collect(l, picks[0]), picks[1..]);
    }
  }

  /** After any sequence of calls that each collect a not-yet-collected
      treasure, the score is the sum of the collected points, the counter is
      the number of collected treasures, and it never exceeds the list
      length. */
  lemma {:induction false} SessionBalanced(l: Ledger, picks: seq<nat>)
    requires Balanced(l) && FreshPicks(l, picks)
    ensures PicksInRange(l, picks)
    ensures Balanced(Replay(l, picks))
    ensures |Replay(l, picks).treasures| == |l.treasures|
    ensures Replay(l, picks).treasuresCollected <= |l.treasures|
    decreases |picks|
  {
    FreshPicksInRange(l, picks);
    if picks != [] {
      CollectPreservesBalance(l, picks[0]);
      SessionBalanced(Collect(l, picks[0]), picks[1..]);
    }
  }

  /** Over such a session the final message is scheduled on exactly one call:
      the last one, and only if it leaves every treasure collected. */
  lemma {:induction false} FinalMessageOnce(l: Ledger, picks: seq<nat>)
    requires Balanced(l) && FreshPicks(l, picks)
    ensures PicksInRange(l, picks)
    ensures var flags := Announcements(l, picks);
      && |flags| == |picks|
      && forall k :: 0 <= k < |flags| ==>
           (flags[k] <==> k == |picks| - 1 && AllCollected(Replay(l, picks).treasures))
    decreases |picks|
  {
    FreshPicksInRange(l, picks);
    if picks != [] {
      var next := Collect(l, picks[0]);
      CollectPreservesBalance(l, picks[0]);
      FinalMessageOnce(next, picks[1..]);
      AllFoundIff(next);
      if |picks| > 1 {
        assert !next.treasures[picks[1]].collected;
      }
    }
  }
}
