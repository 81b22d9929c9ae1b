/** The chart wrappers inside `.main-content` and the three dictionaries
    `charts`, `candleSeriesMap`, `lineSeriesMap` of `AppComponent`
    (src/app/app.component.ts), as values: where `loadChart` puts a new wrapper and
    what `removeChart` takes away. The class in `Dashboard` is proved against these.
    `P` is the type of pair identifiers; only their equality matters here. */
module Layout {
  import opened Seqs
  import opened Widget

  /** `wrappers` lists the pair of each `.chart-wrapper` child of `.main-content`, in
      document order. */
  datatype Charts<P> = Charts(wrappers: seq<P>, charts: map<P, Handle>,
                              candles: map<P, Handle>, lines: map<P, Handle>)

  /** At most one wrapper per pair, and a pair has a wrapper exactly when it has a
      chart, a candlestick series and a line series. */
  ghost predicate Consistent<P(!new)>(c: Charts<P>)
  {
    && NoDup(c.wrappers)
    && (forall p :: p in c.charts <==> p in c.wrappers)
    && c.candles.Keys == c.charts.Keys
    && c.lines.Keys == c.charts.Keys
  }

  /** A later catalog pair in front of whose wrapper the new one may go. */
  predicate Eligible<P(==)>(p: P, selected: seq<P>, wrappers: seq<P>)
  {
    p in selected && p in wrappers
  }

  /** The index at which the scan `for (i = start; i < pairs.length; i++)` stops: the
      first eligible catalog entry from `start` on, or `|pairs|` when there is none. */
  function FirstEligible<P(==)>(pairs: seq<P>, selected: seq<P>, wrappers: seq<P>, start: nat): (k: nat)
    requires start <= |pairs|
    ensures start <= k <= |pairs|
    ensures k < |pairs| ==> Eligible(pairs[k], selected, wrappers)
    ensures forall j :: start <= j < k ==> !Eligible(pairs[j], selected, wrappers)
    decreases |pairs| - start
  {
    if start == |pairs| then start
    else if Eligible(pairs[start], selected, wrappers) then start
    else FirstEligible(pairs, selected, wrappers, start + 1)
  }

  /** Where `loadChart` starts scanning: just after `pairs.indexOf(pair)`, so at 0 for
      a pair missing from the catalog. */
  function ScanStart<P(==)>(pairs: seq<P>, pair: P): (start: nat)
    ensures start <= |pairs|
    ensures pair in pairs ==> 0 < start && pairs[start - 1] == pair
    ensures pair !in pairs ==> start == 0
  {
    IndexOf(pairs, pair) + 1
  }

  /** The index the new wrapper takes: that of the wrapper of the first eligible
      catalog pair after `pair`, or the end when the scan finds none. */
  function PlacementIndex<P(==)>(wrappers: seq<P>, pair: P, pairs: seq<P>, selected: seq<P>): (at: nat)
    ensures at <= |wrappers|
    ensures var k := FirstEligible(pairs, selected, wrappers, ScanStart(pairs, pair));
      if k < |pairs| then at < |wrappers| && wrappers[at] == pairs[k] else at == |wrappers|
  {
    var k := FirstEligible(pairs, selected, wrappers, ScanStart(pairs, pair));
    if k < |pairs| then IndexOf(wrappers, pairs[k]) else |wrappers|
  }

  /** The wrappers after `insertBefore` or `appendChild` of `pair`'s new wrapper: the
      new one sits at the scanned index and no other wrapper is added or lost. */
  function PlaceWrapper<P(==)>(wrappers: seq<P>, pair: P, pairs: seq<P>, selected: seq<P>): (r: seq<P>)
    ensures |r| == |wrappers| + 1 && r[PlacementIndex(wrappers, pair, pairs, selected)] == pair
    ensures multiset(r) == multiset(wrappers) + multiset{pair}
  {
    Inserted(wrappers, PlacementIndex(wrappers, pair, pairs, selected), pair)
  }

  /** `loadChart(pair)` creating the three widget objects `chart`, `candle`, `line`:
      nothing happens when the pair is not selected, there is no `.main-content` host,
      or the pair already has a wrapper. */
  function AfterLoad<P(==)>(c: Charts<P>, pair: P, pairs: seq<P>, selected: seq<P>, hasHost: bool,
                            chart: Handle, candle: Handle, line: Handle): Charts<P>
  {
    if pair !in selected || !hasHost || pair in c.wrappers then c
    else Placed(c, pair, PlacementIndex(c.wrappers, pair, pairs, selected), chart, candle, line)
  }

  /** The wrappers alone after `loadChart(pair)`: the wrappers of `AfterLoad`. */
  function LoadedWrappers<P(==)>(wrappers: seq<P>, pair: P, pairs: seq<P>, selected: seq<P>, hasHost: bool): seq<P>
  {
    if pair !in selected || !hasHost || pair in wrappers then wrappers
    else PlaceWrapper(wrappers, pair, pairs, selected)
  }

  /** After `loadChart(pair)` a pair has a wrapper exactly when it had one before, or it
      is `pair`, selected, with the host present. */
  lemma LoadedWrappersElems<P(!new)>(wrappers: seq<P>, pair: P, pairs: seq<P>, selected: seq<P>, hasHost: bool)
    ensures var w := LoadedWrappers(wrappers, pair, pairs, selected, hasHost);
      forall p :: p in w <==> p in wrappers || (p == pair && pair in selected && hasHost)
  {
    if pair in selected && hasHost && pair !in wrappers {
      InsertedElems(wrappers, PlacementIndex(wrappers, pair, pairs, selected), pair);
    }
  }

  /** The layout with `pair`'s wrapper inserted at index `at` and its three widget
      objects recorded. */
  function Placed<P(==)>(c: Charts<P>, pair: P, at: nat, chart: Handle, candle: Handle, line: Handle): Charts<P>
    requires at <= |c.wrappers|
  {
    Charts(Inserted(c.wrappers, at, pair), c.charts[pair := chart], c.candles[pair := candle], c.lines[pair := line])
  }

  /** Every widget object recorded in `c` was created before the object numbered
      `next`. */
  ghost predicate HandlesBelow<P(!new)>(c: Charts<P>, next: nat)
  {
    && (forall p :: p in c.charts ==> c.charts[p].id < next)
    && (forall p :: p in c.candles ==> c.candles[p].id < next)
    && (forall p :: p in c.lines ==> c.lines[p].id < next)
  }

  /** No chart, candlestick series or line series recorded in `c` is `h`. */
  ghost predicate NotRecorded<P(!new)>(c: Charts<P>, h: Handle)
  {
    forall p ::
      && (p in c.charts ==> c.charts[p] != h)
      && (p in c.candles ==> c.candles[p] != h)
      && (p in c.lines ==> c.lines[p] != h)
  }

  /** `removeChart(pair)`: only when both the wrapper and `charts[pair]` exist are the
      pair's wrapper and its three dictionary entries deleted. */
  function AfterRemove<P(==)>(c: Charts<P>, pair: P): (r: Charts<P>)
    ensures pair in c.wrappers && pair in c.charts ==>
      && multiset(r.wrappers) == multiset(c.wrappers) - multiset{pair}
      && r.charts.Keys == c.charts.Keys - {pair} && r.candles.Keys == c.candles.Keys - {pair}
      && r.lines.Keys == c.lines.Keys - {pair}
    ensures !(pair in c.wrappers && pair in c.charts) ==> r == c
  {
    if pair in c.wrappers && pair in c.charts then
      Charts(RemoveFirst(c.wrappers, pair), c.charts - {pair}, c.candles - {pair}, c.lines - {pair})
    else c
  }

  /** `loadChart` keeps the layout consistent (at most one wrapper and one entry per
      pair), gives a selected pair a wrapper whenever the host exists, and leaves every
      other pair's wrapper and entries as they were. */
  lemma AfterLoadConsistent<P(!new)>(c: Charts<P>, pair: P, pairs: seq<P>, selected: seq<P>, hasHost: bool,
                                     chart: Handle, candle: Handle, line: Handle)
    requires Consistent(c)
    ensures var c' := AfterLoad(c, pair, pairs, selected, hasHost, chart, candle, line);
      && Consistent(c')
      && (pair in c.wrappers ==> c' == c)
      && (pair !in c.wrappers ==> (pair in c'.wrappers <==> pair in selected && hasHost))
      && (forall q :: q != pair ==> (q in c'.wrappers <==> q in c.wrappers))
      && (forall q :: q != pair && q in c.charts ==>
            c'.charts[q] == c.charts[q] && c'.candles[q] == c.candles[q] && c'.lines[q] == c.lines[q])
  {
    if pair in selected && hasHost && pair !in c.wrappers {
      var at := PlacementIndex(c.wrappers, pair, pairs, selected);
      InsertAt(c, pair, at, chart, candle, line);
    }
  }

  /** The two outcomes of `loadChart`: the guards leave the layout as it is, and
      otherwise the layout is the placement at the scanned index, still consistent. */
  lemma AfterLoadCases<P(!new)>(c: Charts<P>, pair: P, pairs: seq<P>, selected: seq<P>, hasHost: bool,
                                chart: Handle, candle: Handle, line: Handle)
    requires Consistent(c)
    ensures !(pair in selected && hasHost && pair !in c.wrappers) ==>
      AfterLoad(c, pair, pairs, selected, hasHost, chart, candle, line) == c
    ensures pair in selected && hasHost && pair !in c.wrappers ==>
      var at := PlacementIndex(c.wrappers, pair, pairs, selected);
      && AfterLoad(c, pair, pairs, selected, hasHost, chart, candle, line) == Placed(c, pair, at, chart, candle, line)
      && Consistent(Placed(c, pair, at, chart, candle, line))
  {
    if pair in selected && hasHost && pair !in c.wrappers {
      InsertAt(c, pair, PlacementIndex(c.wrappers, pair, pairs, selected), chart, candle, line);
    }
  }

  /** Inserting a new pair's wrapper anywhere, together with its three entries, keeps
      the layout consistent and leaves the other pairs alone. */
  lemma InsertAt<P(!new)>(c: Charts<P>, pair: P, at: nat, chart: Handle, candle: Handle, line: Handle)
    requires Consistent(c) && pair !in c.wrappers && at <= |c.wrappers|
    ensures var c' := Placed(c, pair, at, chart, candle, line);
      && Consistent(c')
      && pair in c'.wrappers
      && (forall q :: q != pair ==> (q in c'.wrappers <==> q in c.wrappers))
  {
    var c' := Placed(c, pair, at, chart, candle, line);
    InsertedElems(c.wrappers, at, pair);
    InsertedNoDup(c.wrappers, at, pair);
    assert c'.charts.Keys == c.charts.Keys + {pair};
    assert c'.candles.Keys == c.candles.Keys + {pair} && c'.lines.Keys == c.lines.Keys + {pair};
  }

  /** `removeChart` keeps the layout consistent. */
  lemma AfterRemoveConsistent<P(!new)>(c: Charts<P>, pair: P)
    requires Consistent(c)
    ensures Consistent(AfterRemove(c, pair))
  {
    if pair in c.wrappers && pair in c.charts {
      RemoveFirstKeepsOthers(c.wrappers, pair);
      RemoveFirstNoDup(c.wrappers, pair);
    }
  }

  /** The chart library numbers the objects it creates with a running count. A load
      that numbers its three objects from `next` keeps every recorded object below
      the count after the load, and each object it records is none of those recorded
      before: the handles are fresh. */
  lemma AfterLoadHandles<P(!new)>(c: Charts<P>, pair: P, pairs: seq<P>, selected: seq<P>, hasHost: bool, next: nat)
    requires Consistent(c) && HandlesBelow(c, next)
    ensures var r := AfterLoad(c, pair, pairs, selected, hasHost, Handle(next), Handle(next + 1), Handle(next + 2));
      && HandlesBelow(r, next + 3 * (|r.wrappers| - |c.wrappers|))
      && (forall p :: p in r.charts && p !in c.charts ==> NotRecorded(c, r.charts[p]))
      && (forall p :: p in r.candles && p !in c.candles ==> NotRecorded(c, r.candles[p]))
      && (forall p :: p in r.lines && p !in c.lines ==> NotRecorded(c, r.lines[p]))
  {
    AfterLoadCases(c, pair, pairs, selected, hasHost, Handle(next), Handle(next + 1), Handle(next + 2));
    if pair in selected && hasHost && pair !in c.wrappers {
      PlacedHandles(c, pair, PlacementIndex(c.wrappers, pair, pairs, selected), next);
    }
  }

  /** Recording the three objects numbered from `next` at a new wrapper. */
  lemma PlacedHandles<P(!new)>(c: Charts<P>, pair: P, at: nat, next: nat)
    requires HandlesBelow(c, next) && at <= |c.wrappers|
    ensures var r := Placed(c, pair, at, Handle(next), Handle(next + 1), Handle(next + 2));
      && |r.wrappers| == |c.wrappers| + 1
      && HandlesBelow(r, next + 3)
      && NotRecorded(c, r.charts[pair]) && NotRecorded(c, r.candles[pair]) && NotRecorded(c, r.lines[pair])
  {
  }

  /** `removeChart` records no object, so the running count stays above every
      recorded one. */
  lemma AfterRemoveHandles<P(!new)>(c: Charts<P>, pair: P, next: nat)
    requires HandlesBelow(c, next)
    ensures HandlesBelow(AfterRemove(c, pair), next)
  {
  }

  /** `removeChart` keeps the layout consistent, takes the pair away entirely, and
      leaves every other pair's wrapper and entries as they were. */
  lemma AfterRemoveOnlyTouchesPair<P(!new)>(c: Charts<P>, pair: P)
    requires Consistent(c)
    ensures var c' := AfterRemove(c, pair);
      && Consistent(c')
      && pair !in c'.wrappers && pair !in c'.charts && pair !in c'.candles && pair !in c'.lines
      && (forall q :: q != pair ==> (q in c'.wrappers <==> q in c.wrappers))
      && (forall q :: q != pair && q in c.charts ==>
            q in c'.charts && c'.charts[q] == c.charts[q] && c'.candles[q] == c.candles[q] && c'.lines[q] == c.lines[q])
  {
    if pair in c.wrappers {
      RemoveFirstKeepsOthers(c.wrappers, pair);
      RemoveFirstNoDup(c.wrappers, pair);
    }
  }

  /** Wrappers appear in catalog order: every wrapper's pair is in the catalog, and
      their catalog positions increase along the document. */
  ghost predicate InCatalogOrder<P(!new)>(wrappers: seq<P>, pairs: seq<P>)
  {
    InOrderOf(wrappers, pairs)
  }

  /** The arrangement `loadChart` builds: wrappers in catalog order, each of a selected
      pair. */
  ghost predicate Arranged<P(!new)>(wrappers: seq<P>, selected: seq<P>, pairs: seq<P>)
  {
    InCatalogOrder(wrappers, pairs) && forall p :: p in wrappers ==> p in selected
  }

  /** No wrapper belongs to a catalog pair strictly between `pair` and the place where
      the scan stops. */
  lemma NoWrapperInScanGap<P(!new)>(wrappers: seq<P>, pair: P, pairs: seq<P>, selected: seq<P>, w: nat)
    requires NoDup(pairs)
    requires forall p :: p in wrappers ==> p in selected
    requires pair in pairs && pair !in wrappers
    requires w < |wrappers| && wrappers[w] in pairs
    ensures var kp := IndexOf(pairs, pair);
      var m := IndexOf(pairs, wrappers[w]);
      m < kp || FirstEligible(pairs, selected, wrappers, kp + 1) <= m
  {
    var kp := IndexOf(pairs, pair);
    var m := IndexOf(pairs, wrappers[w]);
    var k := FirstEligible(pairs, selected, wrappers, kp + 1);
    if kp < m < k {
      assert Eligible(pairs[m], selected, wrappers);
    }
  }

  /** Under the hypotheses of `PlacementKeepsCatalogOrder`, the wrappers in front of
      the insertion index are exactly those of pairs before `pair` in the catalog. */
  lemma PlacementSplitsByCatalogPosition<P(!new)>(wrappers: seq<P>, pair: P, pairs: seq<P>, selected: seq<P>, w: nat)
    requires NoDup(pairs)
    requires InCatalogOrder(wrappers, pairs)
    requires forall p :: p in wrappers ==> p in selected
    requires pair in pairs && pair !in wrappers
    requires w < |wrappers|
    ensures w < PlacementIndex(wrappers, pair, pairs, selected) <==> IndexOf(pairs, wrappers[w]) < IndexOf(pairs, pair)
  {
    var kp := IndexOf(pairs, pair);
    var k := FirstEligible(pairs, selected, wrappers, kp + 1);
    var at := PlacementIndex(wrappers, pair, pairs, selected);
    NoWrapperInScanGap(wrappers, pair, pairs, selected, w);
    if k < |pairs| {
      IndexOfNoDup(pairs, k);
      assert IndexOf(pairs, wrappers[at]) == k;
      if w < at {
        assert IndexOf(pairs, wrappers[w]) < IndexOf(pairs, wrappers[at]);
      } else if w > at {
        assert IndexOf(pairs, wrappers[at]) < IndexOf(pairs, wrappers[w]);
      }
    } else {
      assert at == |wrappers| && wrappers[w] != pair;
    }
  }

  /** Placement preserves catalog order when the catalog has no duplicates, the
      existing wrappers are in catalog order and all belong to selected pairs, and
      the new pair is a catalog pair without a wrapper. */
  lemma PlacementKeepsCatalogOrder<P(!new)>(wrappers: seq<P>, pair: P, pairs: seq<P>, selected: seq<P>)
    requires NoDup(pairs)
    requires InCatalogOrder(wrappers, pairs)
    requires forall p :: p in wrappers ==> p in selected
    requires pair in pairs && pair !in wrappers
    ensures InCatalogOrder(PlaceWrapper(wrappers, pair, pairs, selected), pairs)
  {
    var at := PlacementIndex(wrappers, pair, pairs, selected);
    forall w | 0 <= w < |wrappers|
      ensures w < at <==> IndexOf(pairs, wrappers[w]) < IndexOf(pairs, pair)
    {
      PlacementSplitsByCatalogPosition(wrappers, pair, pairs, selected, w);
    }
    InsertedInOrderOf(wrappers, at, pair, pairs);
  }

  /** `loadChart` of a catalog pair keeps the wrappers in catalog order and made of
      selected pairs, under the hypotheses of `PlacementKeepsCatalogOrder`. */
  lemma LoadKeepsCatalogOrder<P(!new)>(wrappers: seq<P>, pair: P, pairs: seq<P>, selected: seq<P>, hasHost: bool)
    requires NoDup(pairs)
    requires InCatalogOrder(wrappers, pairs)
    requires forall p :: p in wrappers ==> p in selected
    requires pair in pairs
    ensures var w := LoadedWrappers(wrappers, pair, pairs, selected, hasHost);
      InCatalogOrder(w, pairs) && forall p :: p in w ==> p in selected
  {
    if pair in selected && hasHost && pair !in wrappers {
      PlacementKeepsCatalogOrder(wrappers, pair, pairs, selected);
      InsertedElems(wrappers, PlacementIndex(wrappers, pair, pairs, selected), pair);
    }
  }

  /** Selecting a pair (push + `loadChart`) and deselecting it again (splice +
      `removeChart`) leaves exactly the charts and wrappers there were before, when
      the pair had no wrapper. */
  lemma LoadThenRemoveRestores<P(!new)>(c: Charts<P>, pair: P, pairs: seq<P>, selected: seq<P>, hasHost: bool,
                                        chart: Handle, candle: Handle, line: Handle)
    requires Consistent(c)
    requires pair !in c.wrappers
    ensures AfterRemove(AfterLoad(c, pair, pairs, selected + [pair], hasHost, chart, candle, line), pair) == c
  {
    assert pair !in c.charts;
    if hasHost {
      var at := PlacementIndex(c.wrappers, pair, pairs, selected + [pair]);
      var placed := Inserted(c.wrappers, at, pair);
      var c1 := Charts(placed, c.charts[pair := chart], c.candles[pair := candle], c.lines[pair := line]);
      assert AfterLoad(c, pair, pairs, selected + [pair], hasHost, chart, candle, line) == c1;
      assert pair in placed;
      RemoveFirstOfInserted(c.wrappers, at, pair);
      UpdateThenRemove(c.charts, pair, chart);
      UpdateThenRemove(c.candles, pair, candle);
      UpdateThenRemove(c.lines, pair, line);
    }
  }

  lemma UpdateThenRemove<K, V>(m: map<K, V>, k: K, v: V)
    requires k !in m
    ensures m[k := v] - {k} == m
  {
  }

  /** A stale wrapper (one whose pair is not selected) is not restored by a round trip:
      the load keeps it and the removal then takes it away. */
  lemma LoadThenRemoveDropsStale<P(!new)>(c: Charts<P>, pair: P, pairs: seq<P>, selected: seq<P>, hasHost: bool,
                                          chart: Handle, candle: Handle, line: Handle)
    requires Consistent(c)
    requires pair in c.wrappers
    ensures AfterRemove(AfterLoad(c, pair, pairs, selected + [pair], hasHost, chart, candle, line), pair)
            == AfterRemove(c, pair) != c
  {
    AfterRemoveOnlyTouchesPair(c, pair);
  }

  /** `removeChart` keeps the wrappers in catalog order. */
  lemma AfterRemoveKeepsCatalogOrder<P(!new)>(c: Charts<P>, pair: P, pairs: seq<P>)
    requires Consistent(c) && InCatalogOrder(c.wrappers, pairs)
    ensures InCatalogOrder(AfterRemove(c, pair).wrappers, pairs)
  {
    if pair in c.wrappers && pair in c.charts {
      RemoveFirstKeepsOrder(c.wrappers, pair, pairs);
    }
  }

  /** `c'` grows `c`: the old wrappers are still there in the same relative order, and
      every pair that had a chart, candlestick series or line series keeps the same
      widget object. */
  ghost predicate Extends<P(!new)>(c: Charts<P>, c': Charts<P>)
  {
    && InOrderOf(c.wrappers, c'.wrappers)
    && (forall p :: p in c.charts ==> p in c'.charts && c'.charts[p] == c.charts[p])
    && (forall p :: p in c.candles ==> p in c'.candles && c'.candles[p] == c.candles[p])
    && (forall p :: p in c.lines ==> p in c'.lines && c'.lines[p] == c.lines[p])
  }

  /** `loadChart` only adds: a pair that already had a wrapper keeps its chart and both
      series, and the old wrappers keep their order. */
  lemma AfterLoadExtends<P(!new)>(c: Charts<P>, pair: P, pairs: seq<P>, selected: seq<P>, hasHost: bool,
                                  chart: Handle, candle: Handle, line: Handle)
    requires Consistent(c)
    ensures Extends(c, AfterLoad(c, pair, pairs, selected, hasHost, chart, candle, line))
  {
    if pair in selected && hasHost && pair !in c.wrappers {
      InsertedKeepsOrder(c.wrappers, PlacementIndex(c.wrappers, pair, pairs, selected), pair);
    } else {
      InOrderOfSelf(c.wrappers);
    }
  }

  /** ... so a run of `loadChart` calls only adds as well. */
  lemma LoadAgainExtends<P(!new)>(start: Charts<P>, c: Charts<P>, pair: P, pairs: seq<P>, selected: seq<P>, hasHost: bool,
                                  chart: Handle, candle: Handle, line: Handle)
    requires Consistent(c) && Extends(start, c)
    ensures Extends(start, AfterLoad(c, pair, pairs, selected, hasHost, chart, candle, line))
  {
    AfterLoadExtends(c, pair, pairs, selected, hasHost, chart, candle, line);
    ExtendsTrans(start, c, AfterLoad(c, pair, pairs, selected, hasHost, chart, candle, line));
  }

  lemma ExtendsTrans<P(!new)>(c: Charts<P>, c': Charts<P>, c'': Charts<P>)
    requires Extends(c, c') && Extends(c', c'')
    ensures Extends(c, c'')
  {
    InOrderOfTrans(c.wrappers, c'.wrappers, c''.wrappers);
  }

  lemma ExtendsSelf<P(!new)>(c: Charts<P>)
    requires Consistent(c)
    ensures Extends(c, c)
  {
    InOrderOfSelf(c.wrappers);
  }

  /** What `pairs.forEach(pair => { if (selectedPairs.includes(pair)) loadChart(pair); })`
      has achieved from the layout `start` once it has passed the first `i` catalog
      pairs: the layout is consistent and only grew, every new wrapper is a selected
      catalog pair, every selected pair passed has a wrapper when the host exists,
      nothing changed when it does not, and an arrangement in catalog order is kept. */
  ghost predicate LoadedUpTo<P(!new)>(start: Charts<P>, c: Charts<P>, pairs: seq<P>, selected: seq<P>, hasHost: bool, i: nat)
    requires i <= |pairs|
  {
    && GrownUpTo(start, c, pairs, selected, hasHost, i)
    && (NoDup(pairs) && Arranged(start.wrappers, selected, pairs) ==> Arranged(c.wrappers, selected, pairs))
  }

  ghost predicate GrownUpTo<P(!new)>(start: Charts<P>, c: Charts<P>, pairs: seq<P>, selected: seq<P>, hasHost: bool, i: nat)
    requires i <= |pairs|
  {
    && Consistent(c)
    && Extends(start, c)
    && (forall p :: p in c.wrappers ==> p in start.wrappers || (p in pairs && p in selected))
    && (hasHost ==> forall j :: 0 <= j < i && pairs[j] in selected ==> pairs[j] in c.wrappers)
    && (!hasHost ==> c == start)
  }

  lemma LoadedUpToStart<P(!new)>(c: Charts<P>, pairs: seq<P>, selected: seq<P>, hasHost: bool)
    requires Consistent(c)
    ensures LoadedUpTo(c, c, pairs, selected, hasHost, 0)
  {
    ExtendsSelf(c);
  }

  /** One step of the `forEach`: `loadChart(pairs[i])` when `pairs[i]` is selected. */
  lemma LoadNext<P(!new)>(start: Charts<P>, c: Charts<P>, pairs: seq<P>, selected: seq<P>, hasHost: bool, i: nat,
                          chart: Handle, candle: Handle, line: Handle)
    requires i < |pairs| && LoadedUpTo(start, c, pairs, selected, hasHost, i)
    ensures pairs[i] in selected ==>
      LoadedUpTo(start, AfterLoad(c, pairs[i], pairs, selected, hasHost, chart, candle, line), pairs, selected, hasHost, i + 1)
    ensures pairs[i] !in selected ==> LoadedUpTo(start, c, pairs, selected, hasHost, i + 1)
  {
    if pairs[i] in selected {
      LoadNextGrows(start, c, pairs, selected, hasHost, i, chart, candle, line);
      if NoDup(pairs) && Arranged(start.wrappers, selected, pairs) {
        LoadNextArranged(c, pairs, selected, hasHost, i, chart, candle, line);
      }
    }
  }

  lemma LoadNextGrows<P(!new)>(start: Charts<P>, c: Charts<P>, pairs: seq<P>, selected: seq<P>, hasHost: bool, i: nat,
                               chart: Handle, candle: Handle, line: Handle)
    requires i < |pairs| && pairs[i] in selected && GrownUpTo(start, c, pairs, selected, hasHost, i)
    ensures GrownUpTo(start, AfterLoad(c, pairs[i], pairs, selected, hasHost, chart, candle, line), pairs, selected, hasHost, i + 1)
  {
    var pair := pairs[i];
    var c' := AfterLoad(c, pair, pairs, selected, hasHost, chart, candle, line);
    AfterLoadConsistent(c, pair, pairs, selected, hasHost, chart, candle, line);
    LoadAgainExtends(start, c, pair, pairs, selected, hasHost, chart, candle, line);
    if !hasHost {
      AfterLoadCases(c, pair, pairs, selected, hasHost, chart, candle, line);
    }
  }

  lemma LoadNextArranged<P(!new)>(c: Charts<P>, pairs: seq<P>, selected: seq<P>, hasHost: bool, i: nat,
                                  chart: Handle, candle: Handle, line: Handle)
    requires i < |pairs| && pairs[i] in selected && Arranged(c.wrappers, selected, pairs)
    requires NoDup(pairs)
    ensures Arranged(AfterLoad(c, pairs[i], pairs, selected, hasHost, chart, candle, line).wrappers, selected, pairs)
  {
    var pair := pairs[i];
    assert AfterLoad(c, pair, pairs, selected, hasHost, chart, candle, line).wrappers
        == LoadedWrappers(c.wrappers, pair, pairs, selected, hasHost);
    LoadKeepsCatalogOrder(c.wrappers, pair, pairs, selected, hasHost);
  }

  /** After the whole catalog: what `LoadedUpTo` says, pair by pair. */
  lemma LoadedAll<P(!new)>(start: Charts<P>, c: Charts<P>, pairs: seq<P>, selected: seq<P>, hasHost: bool)
    requires LoadedUpTo(start, c, pairs, selected, hasHost, |pairs|)
    ensures Consistent(c) && Extends(start, c)
    ensures forall p :: p in start.wrappers ==> p in c.wrappers
    ensures forall p :: p in c.wrappers ==> p in start.wrappers || (p in pairs && p in selected)
    ensures hasHost ==> forall p :: p in pairs && p in selected ==> p in c.wrappers
    ensures !hasHost ==> c == start
    ensures NoDup(pairs) && Arranged(start.wrappers, selected, pairs) ==> InCatalogOrder(c.wrappers, pairs)
  {
    if hasHost {
      forall p | p in pairs && p in selected ensures p in c.wrappers {
        var j := IndexOf(pairs, p);
        assert pairs[j] == p;
      }
    }
  }
}
