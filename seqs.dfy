/** Sequence helpers that stand for the JavaScript array methods the dashboard uses:
    `indexOf`, `splice(i, 1)` and "no element twice". */
module Seqs {

  /** `s.indexOf(x)`: the first index holding `x`, or -1 when there is none. */
  function IndexOf<T(==)>(s: seq<T>, x: T): (i: int)
    ensures -1 <= i < |s|
    ensures i == -1 <==> x !in s
    ensures 0 <= i ==> s[i] == x && x !in s[..i]
  {
    if s == [] then -1
    else if s[0] == x then 0
    else
      var j := IndexOf(s[1..], x);
      if j == -1 then -1
      else
        assert s[..j + 1] == [s[0]] + s[1..][..j];
        j + 1
  }

  /** `s.splice(i, 1)`: the sequence without its element at index `i`. */
  function RemoveAt<T>(s: seq<T>, i: nat): (r: seq<T>)
    requires i < |s|
    ensures |r| == |s| - 1
    ensures forall j :: 0 <= j < i ==> r[j] == s[j]
    ensures forall j :: i <= j < |r| ==> r[j] == s[j + 1]
    ensures multiset(r) == multiset(s) - multiset{s[i]}
  {
    assert s == s[..i] + [s[i]] + s[i + 1..];
    s[..i] + s[i + 1..]
  }

  /** Removes the first occurrence of `x`, as `s.splice(s.indexOf(x), 1)` does. */
  function RemoveFirst<T(==)>(s: seq<T>, x: T): (r: seq<T>)
    requires x in s
    ensures |r| == |s| - 1
    ensures multiset(r) == multiset(s) - multiset{x}
    ensures forall j :: 0 <= j < IndexOf(s, x) ==> r[j] == s[j]
    ensures forall j :: IndexOf(s, x) <= j < |r| ==> r[j] == s[j + 1]
  {
    RemoveAt(s, IndexOf(s, x))
  }

  /** Removing the first `x` keeps every other element. */
  lemma RemoveFirstKeepsOthers<T>(s: seq<T>, x: T)
    requires x in s
    ensures forall y :: y != x ==> (y in RemoveFirst(s, x) <==> y in s)
  {
    var r := RemoveFirst(s, x);
    forall y | y != x
      ensures y in r <==> y in s
    {
      assert y in r <==> y in multiset(r);
      assert y in s <==> y in multiset(s);
    }
  }

  /** No element occurs twice. */
  predicate NoDup<T(==)>(s: seq<T>)
  {
    forall i, j :: 0 <= i < j < |s| ==> s[i] != s[j]
  }

  /** From a sequence without duplicates, removing `x` takes it away entirely and
      introduces no duplicates. */
  lemma RemoveFirstNoDup<T>(s: seq<T>, x: T)
    requires x in s && NoDup(s)
    ensures NoDup(RemoveFirst(s, x)) && x !in RemoveFirst(s, x)
  {
    var i := IndexOf(s, x);
    var r := RemoveFirst(s, x);
    forall a, b | 0 <= a < b < |r| ensures r[a] != r[b] {
      var a' := if a < i then a else a + 1;
      var b' := if b < i then b else b + 1;
      assert r[a] == s[a'] && r[b] == s[b'] && a' < b';
    }
    forall j | 0 <= j < |r| ensures r[j] != x {
      var j' := if j < i then j else j + 1;
      assert r[j] == s[j'] && j' != i;
    }
  }

  /** In a sequence without duplicates, `indexOf` of the element at `k` is `k`. */
  lemma IndexOfNoDup<T>(s: seq<T>, k: nat)
    requires NoDup(s) && k < |s|
    ensures IndexOf(s, s[k]) == k
  {
  }

  /** Removing the one occurrence of an element appended to a sequence that lacks it
      gives the sequence back. */
  lemma {:induction false} RemoveFirstOfAppended<T>(s: seq<T>, x: T)
    requires x !in s
    ensures RemoveFirst(s + [x], x) == s
  {
    assert IndexOf(s + [x], x) == |s|;
    assert (s + [x])[..|s|] == s;
  }

  /** `s` with `x` inserted at index `at` (`insertBefore` of the element at `at`, or
      an append when `at == |s|`). */
  function Inserted<T>(s: seq<T>, at: nat, x: T): (r: seq<T>)
    requires at <= |s|
    ensures |r| == |s| + 1 && r[at] == x
    ensures forall i :: 0 <= i < at ==> r[i] == s[i]
    ensures forall i :: at < i < |r| ==> r[i] == s[i - 1]
    ensures multiset(r) == multiset(s) + multiset{x}
  {
    assert s == s[..at] + s[at..];
    s[..at] + [x] + s[at..]
  }

  lemma InsertedElems<T>(s: seq<T>, at: nat, x: T)
    requires at <= |s|
    ensures forall y :: y in Inserted(s, at, x) <==> y in s || y == x
  {
    var r := Inserted(s, at, x);
    forall y | y in s ensures y in r {
      var i :| 0 <= i < |s| && s[i] == y;
      if i < at { assert r[i] == y; } else { assert r[i + 1] == y; }
    }
  }

  lemma InsertedNoDup<T>(s: seq<T>, at: nat, x: T)
    requires at <= |s| && NoDup(s) && x !in s
    ensures NoDup(Inserted(s, at, x))
  {
    var r := Inserted(s, at, x);
    forall i, j | 0 <= i < j < |r| ensures r[i] != r[j] {
      if i == at {
        assert r[j] == s[j - 1];
      } else if j == at {
        assert r[i] == s[i];
      } else {
        var i' := if i < at then i else i - 1;
        var j' := if j < at then j else j - 1;
        assert r[i] == s[i'] && r[j] == s[j'] && i' < j';
      }
    }
  }

  /** Removing the inserted element again (it was not there before) gives `s` back. */
  lemma RemoveFirstOfInserted<T>(s: seq<T>, at: nat, x: T)
    requires at <= |s| && x !in s
    ensures RemoveFirst(Inserted(s, at, x), x) == s
  {
    var r := Inserted(s, at, x);
    assert r[..at] == s[..at];
    assert x !in r[..at];
    assert IndexOf(r, x) == at;
    assert r[at + 1..] == s[at..];
    assert s[..at] + s[at..] == s;
  }

  /** Every element of `a` occurs in `b`, and their first occurrences in `b` come in
      the order they have in `a`: for sequences without duplicates, `a` is a
      subsequence of `b`. */
  ghost predicate InOrderOf<T(!new)>(a: seq<T>, b: seq<T>)
  {
    && (forall x :: x in a ==> x in b)
    && forall i, j :: 0 <= i < j < |a| ==> IndexOf(b, a[i]) < IndexOf(b, a[j])
  }

  /** A sequence without duplicates is in its own order. */
  lemma InOrderOfSelf<T(!new)>(s: seq<T>)
    requires NoDup(s)
    ensures InOrderOf(s, s)
  {
    forall i, j | 0 <= i < j < |s| ensures IndexOf(s, s[i]) < IndexOf(s, s[j]) {
      IndexOfNoDup(s, i);
      IndexOfNoDup(s, j);
    }
  }

  /** Being in the order of is transitive. */
  lemma InOrderOfTrans<T(!new)>(a: seq<T>, b: seq<T>, c: seq<T>)
    requires InOrderOf(a, b) && InOrderOf(b, c)
    ensures InOrderOf(a, c)
  {
    forall i, j | 0 <= i < j < |a| ensures IndexOf(c, a[i]) < IndexOf(c, a[j]) {
      var i', j' := IndexOf(b, a[i]), IndexOf(b, a[j]);
      assert b[i'] == a[i] && b[j'] == a[j] && i' < j';
    }
  }

  /** Inserting a new element keeps the others in their order. */
  lemma InsertedKeepsOrder<T(!new)>(s: seq<T>, at: nat, x: T)
    requires at <= |s| && NoDup(s) && x !in s
    ensures InOrderOf(s, Inserted(s, at, x))
  {
    var r := Inserted(s, at, x);
    InsertedElems(s, at, x);
    InsertedNoDup(s, at, x);
    forall i, j | 0 <= i < j < |s| ensures IndexOf(r, s[i]) < IndexOf(r, s[j]) {
      var i' := if i < at then i else i + 1;
      var j' := if j < at then j else j + 1;
      assert r[i'] == s[i] && r[j'] == s[j];
      IndexOfNoDup(r, i');
      IndexOfNoDup(r, j');
    }
  }

  /** Inserting `x` at the index that splits `s` by position in `b` keeps `s` in the
      order of `b`. */
  lemma InsertedInOrderOf<T(!new)>(s: seq<T>, at: nat, x: T, b: seq<T>)
    requires at <= |s| && InOrderOf(s, b) && x in b && x !in s
    requires forall w :: 0 <= w < |s| ==> (w < at <==> IndexOf(b, s[w]) < IndexOf(b, x))
    ensures InOrderOf(Inserted(s, at, x), b)
  {
    var r := Inserted(s, at, x);
    InsertedElems(s, at, x);
    forall i, j | 0 <= i < j < |r| ensures IndexOf(b, r[i]) < IndexOf(b, r[j]) {
      if i == at {
        assert r[j] == s[j - 1] && s[j - 1] in b;
        assert IndexOf(b, s[j - 1]) != IndexOf(b, x);
      } else if j == at {
        assert r[i] == s[i];
      } else {
        var i' := if i < at then i else i - 1;
        var j' := if j < at then j else j - 1;
        assert r[i] == s[i'] && r[j] == s[j'] && i' < j';
      }
    }
  }

  /** Removing an element keeps the others in the order they had in `b`. */
  lemma RemoveFirstKeepsOrder<T(!new)>(s: seq<T>, x: T, b: seq<T>)
    requires x in s && InOrderOf(s, b)
    ensures InOrderOf(RemoveFirst(s, x), b)
  {
    var r := RemoveFirst(s, x);
    var at := IndexOf(s, x);
    forall y | y in r ensures y in b {
      assert y in multiset(r);
    }
    forall i, j | 0 <= i < j < |r| ensures IndexOf(b, r[i]) < IndexOf(b, r[j]) {
      var i' := if i < at then i else i + 1;
      var j' := if j < at then j else j + 1;
      assert r[i] == s[i'] && r[j] == s[j'];
    }
  }
}
