/** The list of selected pairs: toggling from the sidebar (`togglePairSelection`) and
    reconciliation against the catalog (`selectedPairs.filter(pair => pairs.includes(pair))`). */
module Selection {
  import opened Seqs
  import opened PairNames

  /** The selection after `togglePairSelection(pair)`: `indexOf` then `splice(index, 1)`
      when the pair is present, `push(pair)` otherwise. */
  function Toggled(selected: seq<Pair>, pair: Pair): (r: seq<Pair>)
    ensures pair in selected ==> multiset(r) == multiset(selected) - multiset{pair}
    ensures pair !in selected ==> multiset(r) == multiset(selected) + multiset{pair}
    ensures pair !in selected ==> |r| == |selected| + 1 && r[|selected|] == pair
  {
    var index := IndexOf(selected, pair);
    if index > -1 then RemoveAt(selected, index) else selected + [pair]
  }

  /** A present pair loses only its first occurrence; the elements before it and
      after it keep their positions relative to each other. */
  lemma ToggledRemovesFirstOccurrence(selected: seq<Pair>, pair: Pair)
    requires pair in selected
    ensures exists i :: 0 <= i < |selected| && selected[i] == pair && pair !in selected[..i]
                        && Toggled(selected, pair) == selected[..i] + selected[i + 1..]
  {
    var i := IndexOf(selected, pair);
    assert selected[i] == pair && pair !in selected[..i];
  }

  /** Toggling an absent pair twice gives the selection back. */
  lemma ToggleAbsentTwice(selected: seq<Pair>, pair: Pair)
    requires pair !in selected
    ensures Toggled(Toggled(selected, pair), pair) == selected
  {
    RemoveFirstOfAppended(selected, pair);
  }

  /** Toggling a present pair twice moves its first occurrence to the end. */
  lemma TogglePresentTwice(selected: seq<Pair>, pair: Pair)
    requires pair in selected && NoDup(selected)
    ensures Toggled(Toggled(selected, pair), pair) == RemoveFirst(selected, pair) + [pair]
  {
    var once := Toggled(selected, pair);
    assert pair !in once;
    RemoveFirstOfAppended(once, pair);
  }

  /** ... so when the pair was not the last one, the original order is not restored. */
  lemma TogglePresentNonLastTwiceReorders(selected: seq<Pair>, pair: Pair)
    requires pair in selected && NoDup(selected) && selected[|selected| - 1] != pair
    ensures Toggled(Toggled(selected, pair), pair) != selected
  {
    TogglePresentTwice(selected, pair);
  }

  /** A selection without duplicates stays without duplicates, and the toggled pair
      is selected afterwards exactly when it was not before. */
  lemma ToggledKeepsNoDup(selected: seq<Pair>, pair: Pair)
    requires NoDup(selected)
    ensures NoDup(Toggled(selected, pair))
    ensures pair in Toggled(selected, pair) <==> pair !in selected
  {
  }

  /** `selected.filter(pair => catalog.includes(pair))`. */
  function Reconciled(selected: seq<Pair>, catalog: seq<Pair>): (r: seq<Pair>)
    ensures forall p :: p in r <==> p in selected && p in catalog
    ensures |r| <= |selected|
  {
    if selected == [] then []
    else (if selected[0] in catalog then [selected[0]] else []) + Reconciled(selected[1..], catalog)
  }

  /** Each pair of the catalog is kept as often as it was selected; others are dropped. */
  lemma {:induction false} ReconciledCounts(selected: seq<Pair>, catalog: seq<Pair>, p: Pair)
    ensures multiset(Reconciled(selected, catalog))[p] == if p in catalog then multiset(selected)[p] else 0
  {
    if selected != [] {
      ReconciledCounts(selected[1..], catalog, p);
      var head := if selected[0] in catalog then [selected[0]] else [];
      assert multiset(Reconciled(selected, catalog)) == multiset(head) + multiset(Reconciled(selected[1..], catalog));
      assert selected == [selected[0]] + selected[1..];
      assert multiset(selected) == multiset([selected[0]]) + multiset(selected[1..]);
    }
  }

  /** Reconciliation distributes over concatenation: relative order is preserved. */
  lemma {:induction false} ReconciledConcat(a: seq<Pair>, b: seq<Pair>, catalog: seq<Pair>)
    ensures Reconciled(a + b, catalog) == Reconciled(a, catalog) + Reconciled(b, catalog)
  {
    if a == [] {
      assert a + b == b;
    } else {
      assert (a + b)[1..] == a[1..] + b;
      ReconciledConcat(a[1..], b, catalog);
    }
  }

  /** A selection wholly inside the catalog is left exactly as it is. */
  lemma {:induction false} ReconciledKeepsAvailable(selected: seq<Pair>, catalog: seq<Pair>)
    requires forall p :: p in selected ==> p in catalog
    ensures Reconciled(selected, catalog) == selected
  {
    if selected != [] {
      ReconciledKeepsAvailable(selected[1..], catalog);
      assert selected == [selected[0]] + selected[1..];
    }
  }

  /** Reconciliation is idempotent. */
  lemma ReconciledIdempotent(selected: seq<Pair>, catalog: seq<Pair>)
    ensures Reconciled(Reconciled(selected, catalog), catalog) == Reconciled(selected, catalog)
  {
    ReconciledKeepsAvailable(Reconciled(selected, catalog), catalog);
  }

  /** Reconciliation never introduces duplicates. */
  lemma {:induction false} ReconciledKeepsNoDup(selected: seq<Pair>, catalog: seq<Pair>)
    requires NoDup(selected)
    ensures NoDup(Reconciled(selected, catalog))
  {
    if selected != [] {
      ReconciledKeepsNoDup(selected[1..], catalog);
      assert selected[0] !in selected[1..];
    }
  }
}
