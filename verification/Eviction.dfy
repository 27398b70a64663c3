/** Which models a load evicts, and exactly when an undisturbed load succeeds. */
module Eviction {
  import opened Common
  import opened Sorting
  import Scheduler
  import Admission
  import opened ModelStores
  import opened Residency
  import opened ResidencyLaws

  // ------------------------------------------------------------------- score

  /** However scores are rounded, they can be sorted by. */
  lemma ScoreIsAnOrder(round: Rounding)
    ensures StrictWeakOrder(ScoreLess(round))
  {
  }

  /** Rounding never turns an order around, and keeps zero and one. */
  ghost predicate Monotone(round: Rounding) {
    && (forall x, y :: x <= y ==> round(x) <= round(y))
    && round(0.0) == 0.0 && round(1.0) == 1.0
  }

  ghost predicate Exact(round: Rounding) { forall x :: round(x) == x }

  // -------------------------------------------------------------- the victims

  lemma SumStep(m: map<string, Bytes>, order: seq<string>, k: nat)
    requires k < |order| && forall i :: 0 <= i < |order| ==> order[i] in m
    ensures Admission.SumOf(m, order[..k + 1]) == Admission.SumOf(m, order[..k]) + m[order[k]]
  {
    assert order[..k + 1][..k] == order[..k];
  }

  /** The loop stops at the first prefix that makes room, or at the end. */
  lemma {:induction false} NeededIsLeast(m: map<string, Bytes>, order: seq<string>, free: int, need: int, k: nat)
    requires k <= |order| && forall i :: 0 <= i < |order| ==> order[i] in m
    ensures var n := Needed(m, order, free + Admission.SumOf(m, order[..k]), need, k);
      && k <= n <= |order|
      && (n < |order| ==> free + Admission.SumOf(m, order[..n]) >= need)
      && forall j :: k <= j < n ==> free + Admission.SumOf(m, order[..j]) < need
    decreases |order| - k
  {
    if free + Admission.SumOf(m, order[..k]) < need && k < |order| {
      SumStep(m, order, k);
      NeededIsLeast(m, order, free, need, k + 1);
    }
  }

  lemma RankedAreResident(records: map<string, Record>, order: seq<string>)
    requires Candidates(records, order)
    ensures forall i :: 0 <= i < |order| ==> order[i] in Residents(records)
    ensures forall k, i :: 0 <= i < k <= |order| ==> order[..k][i] in Residents(records)
  {
    assert forall i :: 0 <= i < |order| ==> Evictable(records, order[i]);
  }

  /** The planning loop's running total stays within the capacity. */
  lemma AvailableNeverExceedsCapacity(w: World, order: seq<string>, k: nat)
    requires Inv(w) && w.phase.Looked? && Candidates(w.records, order) && k <= |order|
    ensures forall i :: 0 <= i < k ==> order[..k][i] in Residents(w.records)
    ensures w.resources.Free() + Admission.SumOf(Residents(w.records), order[..k]) <= w.resources.capacity
  {
    RankedAreResident(w.records, order);
    PrefixIsDistinct(order);
    Admission.VictimsAddUp(Residents(w.records), order[..k]);
  }

  /** The planning step, case by case. */
  lemma PlanCases(w: World, order: seq<string>)
    requires w.phase.Looked? && Candidates(w.records, order)
    ensures forall i :: 0 <= i < |order| ==> order[i] in Residents(w.records)
    ensures var m, free, need := Residents(w.records), w.resources.Free(), w.phase.model.footprint;
      var n := Needed(m, order, free, need, 0);
      DoPlan(w, order) ==
        if need > w.resources.capacity then Fail(w.(phase := Idle), InsufficientMemory)
        else if free >= need then Step(w.(phase := Planned(w.phase.model, [])), None)
        else if free + Admission.SumOf(m, order[..n]) < need then Fail(w.(phase := Idle), InsufficientMemory)
        else Step(w.(phase := Planned(w.phase.model, order[..n])), None)
  {
    RankedAreResident(w.records, order);
  }

  /** The shortest prefix of the order that makes room. */
  ghost predicate MakesRoom(m: map<string, Bytes>, order: seq<string>, free: int, need: int, victims: seq<string>)
    requires forall i :: 0 <= i < |order| ==> order[i] in m
  {
    && victims <= order
    && (forall i :: 0 <= i < |victims| ==> victims[i] == order[i])
    && free + Admission.SumOf(m, victims) >= need
    && forall j :: 0 <= j < |victims| ==> free + Admission.SumOf(m, victims[..j]) < need
  }

  lemma PrefixMakesRoom(m: map<string, Bytes>, order: seq<string>, free: int, need: int, victims: seq<string>)
    requires forall i :: 0 <= i < |order| ==> order[i] in m
    requires victims == if free >= need then [] else order[..Needed(m, order, free, need, 0)]
    requires free >= need || free + Admission.SumOf(m, victims) >= need
    ensures MakesRoom(m, order, free, need, victims)
  {
    assert order[..0] == [];
    NeededIsLeast(m, order, free, need, 0);
    forall j | 0 <= j < |victims| ensures free + Admission.SumOf(m, victims[..j]) < need {
      assert victims[..j] == order[..j];
    }
  }

  /** A plan that is made takes the shortest prefix of the ranking that makes room: nothing if the
      free bytes suffice, and never one victim more than needed. */
  lemma PlanIsShortestPrefix(w: World, order: seq<string>)
    requires w.phase.Looked? && Candidates(w.records, order)
    requires DoPlan(w, order).world.phase.Planned?
    ensures forall i :: 0 <= i < |order| ==> order[i] in Residents(w.records)
    ensures MakesRoom(Residents(w.records), order, w.resources.Free(), w.phase.model.footprint,
                      DoPlan(w, order).world.phase.victims)
  {
    RankedAreEvictable(w.records, order);
    PlanCases(w, order);
    PrefixMakesRoom(Residents(w.records), order, w.resources.Free(), w.phase.model.footprint,
                    DoPlan(w, order).world.phase.victims);
  }

  /** Whatever the candidates are ranked by, no victim ranks behind an evictable model that is
      spared: this needs no exact scores, only that the sort goes by what it compares. */
  lemma PlanSparesHigherScores(w: World, order: seq<string>, less: (Record, Record) -> bool, v: string, s: string)
    requires w.phase.Looked? && Candidates(w.records, order) && RankedBy(less, w.records, order)
    requires DoPlan(w, order).world.phase.Planned?
    requires v in DoPlan(w, order).world.phase.victims
    requires Evictable(w.records, s) && s !in DoPlan(w, order).world.phase.victims
    ensures v in w.records && !less(w.records[s], w.records[v])
  {
    PlanIsShortestPrefix(w, order);
    VictimsScoreLowest(w.records, order, less, DoPlan(w, order).world.phase.victims, v, s);
  }

  lemma VictimsScoreLowest(records: map<string, Record>, order: seq<string>, less: (Record, Record) -> bool,
                           victims: seq<string>, v: string, s: string)
    requires Candidates(records, order) && RankedBy(less, records, order)
    requires victims <= order && v in victims && Evictable(records, s) && s !in victims
    ensures v in records && !less(records[s], records[v])
  {
    var i :| 0 <= i < |victims| && victims[i] == v;
    var j :| 0 <= j < |order| && order[j] == s;
    assert order[i] == v;
    assert forall k :: 0 <= k < |victims| ==> order[k] == victims[k];
  }

  predicate SameFactors(a: Record, b: Record) {
    a.cost == b.cost && a.loadCount == b.loadCount && a.footprint == b.footprint
  }

  lemma ProductsGrow(x: real, y: real, c: real)
    requires x <= y && c >= 0.0
    ensures Times(x, c) <= Times(y, c)
    ensures x < y && c > 0.0 ==> Times(x, c) < Times(y, c)
  {
  }

  lemma QuotientsGrow(x: real, y: real, d: real)
    requires x <= y && d >= 1.0
    ensures Quotient(x, d) <= Quotient(y, d)
    ensures x < y ==> Quotient(x, d) < Quotient(y, d)
  {
    assert x / d * d == x && y / d * d == y;
    if x / d > y / d {
      ProductsGrow(y / d, x / d, d);
    }
  }

  lemma RoundsUp(round: Rounding, x: real)
    requires Monotone(round) && x >= 1.0
    ensures round(x) >= 1.0
  {
  }

  lemma RoundsAlike(round: Rounding, x: real, y: real)
    requires Monotone(round) && x <= y
    ensures round(x) <= round(y)
  {
  }

  lemma ProductsMove(round: Rounding, x: real, x': real, y: real, y': real)
    requires Monotone(round) && 0.0 <= x <= x' && 0.0 <= y <= y'
    ensures 0.0 <= round(Times(x, y)) <= round(Times(x', y'))
  {
    hide Times, Monotone;
    ProductsGrow(0.0, x, y);
    ProductsGrow(x, x', y);
    ProductsGrow(y, y', x');
    TimesCommutes(x', y);
    TimesCommutes(x', y');
    NothingTimes(y);
    RoundsAlike(round, 0.0, Times(x, y));
    RoundsAlike(round, Times(x, y), Times(x', y'));
    ZeroStays(round);
  }

  lemma TimesCommutes(x: real, y: real)
    ensures Times(x, y) == Times(y, x)
  {
  }

  lemma NothingTimes(y: real)
    ensures Times(0.0, y) == 0.0
  {
  }

  lemma ZeroStays(round: Rounding)
    requires Monotone(round)
    ensures round(0.0) == 0.0
  {
  }

  lemma LargerDivisor(x: real, c: real, d: real)
    requires x >= 0.0 && 1.0 <= c <= d
    ensures Quotient(x, d) <= Quotient(x, c)
  {
    assert x / c * c == x && x / d * d == x;
    if x / c < x / d {
      ProductsGrow(x / c, x / d, d);
      ProductsGrow(c, d, x / c);
    }
  }

  /** b was loaded no earlier, cost no less, was loaded no fewer times and is no larger. */
  predicate AllFactorsLead(a: Record, b: Record) {
    a.lastLoaded <= b.lastLoaded && a.cost <= b.cost && a.loadCount <= b.loadCount && a.footprint >= b.footprint
  }

  /** Whatever the rounding, a later load, a higher cost or a higher load count never lowers a score
      and a larger footprint never raises it. */
  lemma FactorsMoveScore(round: Rounding, a: Record, b: Record)
    requires Monotone(round) && AllFactorsLead(a, b)
    ensures Score(round, a) <= Score(round, b)
  {
    hide Quotient, Times, Monotone;
    var la, ca, ha, fa := a.lastLoaded as real, Raised(a.cost) as real, (a.loadCount + 1) as real, Raised(a.footprint) as real;
    var lb, cb, hb, fb := b.lastLoaded as real, Raised(b.cost) as real, (b.loadCount + 1) as real, Raised(b.footprint) as real;
    ZeroStays(round);
    RoundsAlike(round, 0.0, la);
    RoundsAlike(round, la, lb);
    RoundsUp(round, ca);
    RoundsAlike(round, ca, cb);
    RoundsUp(round, ha);
    RoundsAlike(round, ha, hb);
    RoundsUp(round, fb);
    RoundsAlike(round, fb, fa);
    ProductsMove(round, round(la), round(lb), round(ca), round(cb));
    var x, y := round(Times(round(la), round(ca))), round(Times(round(lb), round(cb)));
    ProductsMove(round, x, y, round(ha), round(hb));
    x, y := round(Times(x, round(ha))), round(Times(y, round(hb)));
    LargerDivisor(x, round(fb), round(fa));
    QuotientsGrow(x, y, round(fb));
    RoundsAlike(round, Quotient(x, round(fa)), Quotient(y, round(fb)));
  }

  /** In any ranking, a model that leads a later-ranked one in every factor ties with it. */
  lemma LeadersRankLater(round: Rounding, records: map<string, Record>, order: seq<string>, i: nat, j: nat)
    requires Monotone(round) && Ranking(round, records, order) && i < j < |order|
    ensures order[i] in records && order[j] in records
    ensures AllFactorsLead(records[order[j]], records[order[i]]) ==>
      Score(round, records[order[i]]) == Score(round, records[order[j]])
  {
    hide Score, Monotone;
    assert Evictable(records, order[i]) && Evictable(records, order[j]);
    var a, b := records[order[i]], records[order[j]];
    assert !ScoreLess(round)(b, a);
    if AllFactorsLead(b, a) {
      FactorsMoveScore(round, b, a);
    }
  }

  // ------------------------------------------------------------ exact scores

  /** A cost or a footprint of nothing counts as one. */
  function Raised(x: nat): nat { if x == 0 then 1 else x }

  /** The fraction lastLoaded * cost * (loadCount + 1) / footprint of a is at most that of b, both
      brought to a common denominator. */
  predicate WorthNoMore(a: Record, b: Record) {
    a.lastLoaded * Raised(a.cost) * (a.loadCount + 1) * Raised(b.footprint)
    <= b.lastLoaded * Raised(b.cost) * (b.loadCount + 1) * Raised(a.footprint)
  }

  lemma {:induction false} ProductOfReals(x: nat, y: nat)
    ensures (x * y) as real == Times(x as real, y as real)
  {
    if x > 0 {
      ProductOfReals(x - 1, y);
      assert x * y == (x - 1) * y + y;
    }
  }

  lemma CrossMultiplied(x: real, y: real, c: real, d: real)
    requires c >= 1.0 && d >= 1.0
    ensures Quotient(x, c) <= Quotient(y, d) <==> Times(x, d) <= Times(y, c)
  {
    var p, q := x / c, y / d;
    assert p * c == x && q * d == y;
    Regrouped(p, c, d);
    Regrouped(q, c, d);
    var m := c * d;
    assert m >= 1.0 by { ProductsGrow(1.0, c, d); }
    if p <= q {
      ProductsGrow(p, q, m);
    } else {
      ProductsGrow(q, p, m);
    }
  }

  lemma Regrouped(p: real, c: real, d: real)
    ensures p * c * d == p * (c * d) && p * d * c == p * (c * d)
  {
  }

  lemma FourFactors(l: nat, c: nat, h: nat, f: nat)
    ensures (l * c * h * f) as real == Times(Times(Times(l as real, c as real), h as real), f as real)
  {
    ProductOfReals(l, c);
    ProductOfReals(l * c, h);
    ProductOfReals(l * c * h, f);
  }

  lemma RealsOrder(x: nat, y: nat)
    ensures x as real <= y as real <==> x <= y
  {
  }

  /** The dividend of an exact score. */
  function Dividend(r: Record): real {
    Times(Times(r.lastLoaded as real, Raised(r.cost) as real), (r.loadCount + 1) as real)
  }

  lemma WorthInReals(a: Record, b: Record)
    ensures WorthNoMore(a, b) <==>
      Times(Dividend(a), Raised(b.footprint) as real) <= Times(Dividend(b), Raised(a.footprint) as real)
  {
    hide Times, Raised;
    FourFactors(a.lastLoaded, Raised(a.cost), a.loadCount + 1, Raised(b.footprint));
    FourFactors(b.lastLoaded, Raised(b.cost), b.loadCount + 1, Raised(a.footprint));
    RealsOrder(a.lastLoaded * Raised(a.cost) * (a.loadCount + 1) * Raised(b.footprint),
               b.lastLoaded * Raised(b.cost) * (b.loadCount + 1) * Raised(a.footprint));
  }

  lemma ExactScore(round: Rounding, r: Record)
    requires Exact(round)
    ensures Score(round, r) == Quotient(Dividend(r), Raised(r.footprint) as real)
  {
    hide Times, Quotient;
  }

  /** Without rounding, scores compare as these products of the fields. */
  lemma ExactScoresCompare(round: Rounding, a: Record, b: Record)
    requires Exact(round)
    ensures Score(round, a) <= Score(round, b) <==> WorthNoMore(a, b)
  {
    hide Times, Quotient, WorthNoMore, Score, Dividend, Exact;
    ExactScore(round, a);
    ExactScore(round, b);
    WorthInReals(a, b);
    CrossMultiplied(Dividend(a), Dividend(b), Raised(a.footprint) as real, Raised(b.footprint) as real);
  }

  /** Without rounding, the rankings of the evictable models are exactly the orders in which no
      fraction precedes a smaller one. */
  lemma ExactRankingIff(round: Rounding, records: map<string, Record>, order: seq<string>)
    requires Exact(round) && Candidates(records, order)
    ensures forall i :: 0 <= i < |order| ==> order[i] in records
    ensures Ranking(round, records, order)
      <==> forall i, j :: 0 <= i < j < |order| ==> WorthNoMore(records[order[i]], records[order[j]])
  {
    hide Score, WorthNoMore, Exact;
    RankedAreEvictable(records, order);
    forall i, j | 0 <= i < j < |order|
      ensures ScoreLess(round)(records[order[j]], records[order[i]]) <==> !WorthNoMore(records[order[i]], records[order[j]])
    {
      ExactScoresCompare(round, records[order[i]], records[order[j]]);
    }
  }

  /** A load without rounding never evicts a model of a greater fraction and spares one of a smaller. */
  lemma VictimsAreWorthLeast(w: World, order: seq<string>, round: Rounding, v: string, s: string)
    requires Exact(round) && w.phase.Looked? && Ranking(round, w.records, order)
    requires DoPlan(w, order).world.phase.Planned?
    requires v in DoPlan(w, order).world.phase.victims
    requires s in w.records && w.records[s].resident && w.records[s].refCount == 0
    requires s !in DoPlan(w, order).world.phase.victims
    ensures v in w.records && w.records[v].resident && w.records[v].refCount == 0
    ensures WorthNoMore(w.records[v], w.records[s])
  {
    hide Score, WorthNoMore, Exact, DoPlan;
    PlanIsShortestPrefix(w, order);
    var victims := DoPlan(w, order).world.phase.victims;
    VictimsScoreLowest(w.records, order, ScoreLess(round), victims, v, s);
    RankedAreEvictable(w.records, order);
    var i :| 0 <= i < |victims| && victims[i] == v;
    assert order[i] == v;
    ExactScoresCompare(round, w.records[v], w.records[s]);
  }

  /** Of two records with the same factors the one loaded earlier never scores higher. */
  lemma EarlierScoresNoHigher(round: Rounding, a: Record, b: Record)
    requires Monotone(round) && SameFactors(a, b) && a.lastLoaded <= b.lastLoaded
    ensures Score(round, a) <= Score(round, b)
  {
    FactorsMoveScore(round, a, b);
  }

  lemma EarlierScoresLower(round: Rounding, a: Record, b: Record)
    requires Exact(round) && SameFactors(a, b) && a.lastLoaded < b.lastLoaded
    ensures Score(round, a) < Score(round, b)
  {
    hide Quotient, Times;
    var cost, history := (if a.cost < 1 then 1 else a.cost) as real, (a.loadCount + 1) as real;
    var bytes := (if a.footprint < 1 then 1 else a.footprint) as real;
    var x, y := a.lastLoaded as real, b.lastLoaded as real;
    ProductsGrow(x, y, cost);
    ProductsGrow(Times(x, cost), Times(y, cost), history);
    QuotientsGrow(Times(Times(x, cost), history), Times(Times(y, cost), history), bytes);
  }

  /** When cost, load count and footprint are equal across the candidates, eviction is least recently
      loaded first, up to load stamps whose scores rounding cannot tell apart: there are none when
      the arithmetic is exact. */
  lemma EqualModelsAreEvictedOldestFirst(records: map<string, Record>, order: seq<string>, round: Rounding)
    requires Monotone(round) && Ranking(round, records, order)
    requires forall a, b :: a in records && b in records && a != b && Evictable(records, a) && Evictable(records, b) ==>
      SameFactors(records[a], records[b]) && records[a].lastLoaded != records[b].lastLoaded
    ensures forall i :: 0 <= i < |order| ==> order[i] in records
    ensures forall i, j :: 0 <= i < j < |order| ==>
      || records[order[i]].lastLoaded < records[order[j]].lastLoaded
      || (Score(round, records[order[i]]) == Score(round, records[order[j]]) && !Exact(round))
  {
    hide Score, Exact, Monotone;
    forall i | 0 <= i < |order| ensures order[i] in records && Evictable(records, order[i]) {
      assert Evictable(records, order[i]);
    }
    forall i, j | 0 <= i < j < |order| && records[order[i]].lastLoaded >= records[order[j]].lastLoaded
      ensures Score(round, records[order[i]]) == Score(round, records[order[j]]) && !Exact(round)
    {
      var a, b := records[order[i]], records[order[j]];
      assert order[i] != order[j] && Evictable(records, order[i]) && Evictable(records, order[j]);
      assert SameFactors(a, b) && a.lastLoaded != b.lastLoaded;
      assert !ScoreLess(round)(b, a);
      EarlierScoresNoHigher(round, b, a);
      if Exact(round) {
        EarlierScoresLower(round, b, a);
        assert false;
      }
    }
  }

  /** In any reachable state the load stamps of the candidates do differ. */
  lemma CandidatesDiffer(w: World, a: string, b: string)
    requires Inv(w) && Evictable(w.records, a) && Evictable(w.records, b) && a != b
    ensures w.records[a].lastLoaded != w.records[b].lastLoaded
  {
  }

  /** Planning fails exactly when free bytes and all evictable models together are too few. */
  lemma PlanFailsIff(w: World, order: seq<string>)
    requires Inv(w) && w.phase.Looked? && Candidates(w.records, order)
    ensures forall i :: 0 <= i < |order| ==> order[i] in Residents(w.records)
    ensures DoPlan(w, order).world.phase.Planned?
       <==> w.phase.model.footprint <= w.resources.Free() + Admission.SumOf(Residents(w.records), order)
    ensures !DoPlan(w, order).world.phase.Planned? ==>
      DoPlan(w, order) == Fail(w.(phase := Idle), InsufficientMemory)
  {
    hide DoPlan, Residents, Needed, Candidates, Inv, Evictable;
    PlanCases(w, order);
    AvailableNeverExceedsCapacity(w, order, |order|);
    var m, free, need := Residents(w.records), w.resources.Free(), w.phase.model.footprint;
    NeededIsLeast(m, order, free, need, 0);
    assert order[..0] == [] && order[..|order|] == order;
    NoPrefixSumsMore(m, order, Needed(m, order, free, need, 0));
  }

  lemma {:induction false} NoPrefixSumsMore(m: map<string, Bytes>, order: seq<string>, k: nat)
    requires k <= |order| && forall i :: 0 <= i < |order| ==> order[i] in m
    ensures Admission.SumOf(m, order[..k]) <= Admission.SumOf(m, order)
    decreases |order| - k
  {
    if k == |order| {
      assert order[..k] == order;
    } else {
      SumStep(m, order, k);
      NoPrefixSumsMore(m, order, k + 1);
    }
  }

  // ------------------------------------------------------- undisturbed loads

  /** The phases of load after planning, uninterrupted. */
  function Completion(w: World, file: FileOutcome, accepts: bool, cost: nat, now: Scheduler.Time): Step
    requires w.phase.Planned?
  {
    var loaded := DoBackend(w, file, accepts, cost);
    if loaded.reply.Some? then loaded
    else
      var swapped := DoReplace(loaded.world, now);
      if swapped.reply.Some? then swapped
      else DoFinalize(swapped.world)
  }

  /** One call of load with no other caller stepping in between. */
  function LoadAlone(w: World, id: string, order: seq<string>, file: FileOutcome, accepts: bool, cost: nat,
                     now: Scheduler.Time): Step
    requires w.phase.Idle? && forall i :: 0 <= i < |order| ==> Evictable(w.records, order[i])
  {
    var looked := DoLookup(w, id);
    if looked.reply.Some? then looked
    else
      var planned := DoPlan(looked.world, order);
      if planned.reply.Some? then planned
      else
        Completion(planned.world, file, accepts, cost, now)
  }

  /** The bytes held by resident models nobody references. */
  function EvictableBytes(records: map<string, Record>): map<string, Bytes> {
    map id | id in records && records[id].resident && records[id].refCount == 0 :: records[id].footprint
  }

  lemma {:induction false} SameSum(m: map<string, Bytes>, n: map<string, Bytes>, ids: seq<string>)
    requires forall i :: 0 <= i < |ids| ==> ids[i] in m && ids[i] in n && m[ids[i]] == n[ids[i]]
    ensures Admission.SumOf(m, ids) == Admission.SumOf(n, ids)
  {
    if ids != [] {
      SameSum(m, n, ids[..|ids| - 1]);
    }
  }

  lemma CandidatesCoverEvictable(records: map<string, Record>, order: seq<string>)
    requires Candidates(records, order)
    ensures forall i :: 0 <= i < |order| ==> order[i] in Residents(records)
    ensures Admission.SumOf(Residents(records), order) == Total(EvictableBytes(records))
  {
    var m := EvictableBytes(records);
    RankedAreResident(records, order);
    SameSum(Residents(records), m, order);
    Admission.VictimsAddUp(m, order);
    forall id | id in m ensures id in Admission.Elements(order) {
      assert Evictable(records, id);
    }
    assert m - Admission.Elements(order) == map[];
  }

  lemma BackendTakesPlanned(w: World, cost: nat)
    requires Inv(w) && w.phase.Planned?
    ensures DoBackend(w, FileOk, true, cost).reply == None && DoBackend(w, FileOk, true, cost).world.phase.Loaded?
  {
  }

  lemma ReplaceFits(w: World, now: Scheduler.Time)
    requires Inv(w) && w.phase.Loaded?
    requires forall i :: 0 <= i < |w.phase.victims| ==> w.phase.victims[i] in Residents(w.records)
    requires w.phase.model.footprint <= w.resources.Free() + Admission.SumOf(Residents(w.records), w.phase.victims)
    ensures DoReplace(w, now).reply == None
  {
    hide Admission.Inv, Stamped, Admission.Replace;
    ReplaceFrame(w.resources, w.phase.victims, w.phase.model.id, w.phase.model.footprint, now);
  }

  /** With a readable source, a willing backend and no other caller in between, loading a
      registered non-resident model succeeds exactly when its footprint is at most the free bytes
      plus the footprints of the resident models nobody references, whatever order they are ranked
      in.  Then the shortest prefix that makes room gives way to it and all other residents stay;
      otherwise it reports insufficient memory and changes nothing. */
  lemma LoadSucceedsIffItFits(w: World, id: string, order: seq<string>, cost: nat, now: Scheduler.Time)
    returns (victims: seq<string>)
    requires Inv(w) && w.phase.Idle? && Candidates(w.records, order)
    requires id in w.registry.models && id !in Residents(w.records)
    ensures forall i :: 0 <= i < |order| ==> order[i] in Residents(w.records)
    ensures var s, footprint := LoadAlone(w, id, order, FileOk, true, cost, now), w.registry.models[id].footprint;
      if footprint <= w.resources.Free() + Total(EvictableBytes(w.records))
      then
        && s.reply == Some(ModelResult(NoError, footprint)) && Inv(s.world) && s.world.phase.Idle?
        && MakesRoom(Residents(w.records), order, w.resources.Free(), footprint, victims)
        && Residents(s.world.records) == (Residents(w.records) - Admission.Elements(victims))[id := footprint]
      else s == Fail(w, InsufficientMemory)
  {
    assert w.registry.models[id].id == id;
    hide Inv, DoPlan, DoBackend, DoReplace, DoFinalize, Residents, EvictableBytes, Candidates, Evictable, MakesRoom;
    RankedAreEvictable(w.records, order);
    var looked := DoLookup(w, id).world;
    LookupGoesOn(w, id);
    LookupKeepsInv(w, id);
    CandidatesCoverEvictable(w.records, order);
    PlanFailsIff(looked, order);
    PlanReplies(looked, order);
    var planned := DoPlan(looked, order).world;
    victims := [];
    if planned.phase.Planned? {
      victims := planned.phase.victims;
      PlanKeepsInv(looked, order);
      PlanIsShortestPrefix(looked, order);
      FinishPlanned(looked, order, cost, now);
    }
  }

  lemma RankedAreEvictable(records: map<string, Record>, order: seq<string>)
    requires Candidates(records, order)
    ensures forall i :: 0 <= i < |order| ==> Evictable(records, order[i])
  {
  }

  lemma LookupGoesOn(w: World, id: string)
    requires w.phase.Idle? && id in w.registry.models && id !in Residents(w.records)
    ensures DoLookup(w, id) == Step(w.(phase := Looked(w.registry.models[id])), None)
  {
  }

  lemma PlanReplies(w: World, order: seq<string>)
    requires w.phase.Looked? && forall i :: 0 <= i < |order| ==> Evictable(w.records, order[i])
    ensures DoPlan(w, order).reply == None <==> DoPlan(w, order).world.phase.Planned?
    ensures DoPlan(w, order).reply == None ==>
      DoPlan(w, order).world == w.(phase := DoPlan(w, order).world.phase) && DoPlan(w, order).world.phase.model == w.phase.model
  {
    hide Residents, Needed;
  }

  /** From a plan that makes room, the remaining phases go through. */
  lemma FinishPlanned(w: World, order: seq<string>, cost: nat, now: Scheduler.Time)
    requires Inv(w) && w.phase.Looked? && Candidates(w.records, order) && DoPlan(w, order).world.phase.Planned?
    ensures var loaded := DoBackend(DoPlan(w, order).world, FileOk, true, cost);
      && loaded.reply == None && loaded.world.phase.Loaded?
      && var swapped := DoReplace(loaded.world, now);
      && swapped.reply == None && swapped.world.phase.Swapped?
      && var done := DoFinalize(swapped.world);
      && done.reply == Some(ModelResult(NoError, w.phase.model.footprint))
      && Inv(done.world) && done.world.phase.Idle?
      && Residents(done.world.records) ==
         (Residents(w.records) - Admission.Elements(DoPlan(w, order).world.phase.victims))[w.phase.model.id := w.phase.model.footprint]
  {
    hide Inv, DoPlan, Residents, Candidates, DoReplace, DoFinalize, Evictable;
    RankedAreEvictable(w.records, order);
    var planned := DoPlan(w, order).world;
    PlanKeepsInv(w, order);
    PlanIsShortestPrefix(w, order);
    PlanReplies(w, order);
    BackendTakesPlanned(planned, cost);
    BackendKeepsInv(planned, FileOk, true, cost);
    var loaded := DoBackend(planned, FileOk, true, cost).world;
    assert loaded.phase.victims == planned.phase.victims && loaded.records == w.records && loaded.resources == w.resources;
    ReplaceFits(loaded, now);
    ReplaceKeepsInv(loaded, now);
    var swapped := DoReplace(loaded, now).world;
    SwapGoesOn(loaded, now);
    FinalizeKeepsInv(swapped);
    FinalizeSettles(swapped);
  }

  lemma SwapGoesOn(w: World, now: Scheduler.Time)
    requires w.phase.Loaded? && DoReplace(w, now).reply == None
    ensures DoReplace(w, now).world.phase == Swapped(w.phase.model, w.phase.victims, w.phase.cost)
    ensures DoReplace(w, now).world.records == w.records
  {
    hide Admission.Replace;
  }

  lemma FinalizeSettles(w: World)
    requires w.phase.Swapped?
    ensures var done := DoFinalize(w); var model := w.phase.model;
      && done.reply == Some(ModelResult(NoError, model.footprint)) && done.world.phase.Idle?
      && Residents(done.world.records)
         == (Residents(w.records) - Admission.Elements(w.phase.victims))[model.id := model.footprint]
  {
    hide Residents, Evicted;
    var model, after := w.phase.model, DoFinalize(w).world.records;
    var record := after[model.id];
    EvictedResidents(w.records, w.phase.victims, record);
    assert after == Evicted(w.records, w.phase.victims)[model.id := record];
    assert record.id == model.id && record.footprint == model.footprint;
  }
}
