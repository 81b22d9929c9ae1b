/** Pair identifiers: `cleanPair` and the catalog built from the `/dumps` list
    (src/app/app.component.ts and src/app/components/home/home.component.ts carry
    identical copies of `cleanPair`). */
module PairNames {
  import opened Wrappers

  type Pair = string

  /** Membership in the character class `[a-zA-Z0-9]`. */
  predicate IsAlnum(c: char)
  {
    'a' <= c <= 'z' || 'A' <= c <= 'Z' || '0' <= c <= '9'
  }

  predicate AllAlnum(s: string)
  {
    forall i :: 0 <= i < |s| ==> IsAlnum(s[i])
  }

  /** `s.replace(/[^a-zA-Z0-9]/g, '')`. */
  function StripNonAlnum(s: string): (r: string)
    ensures AllAlnum(r)
    ensures |r| <= |s|
  {
    if s == [] then []
    else (if IsAlnum(s[0]) then [s[0]] else []) + StripNonAlnum(s[1..])
  }

  /** `cleanPair(pair)`: a falsy input (`null`, `undefined` as `None`, or the empty
      string) gives `''`; anything else loses every non-alphanumeric character. */
  function CleanPair(raw: Option<string>): (r: Pair)
    ensures AllAlnum(r)
    ensures raw.None? ==> r == ""
    ensures raw.Some? ==> r == StripNonAlnum(raw.value)
  {
    if raw.None? || raw.value == "" then "" else StripNonAlnum(raw.value)
  }

  /** Stripping distributes over concatenation, so the characters kept stay in
      their original order. */
  lemma {:induction false} StripConcat(a: string, b: string)
    ensures StripNonAlnum(a + b) == StripNonAlnum(a) + StripNonAlnum(b)
  {
    if a == [] {
      assert a + b == b;
    } else {
      var kept := if IsAlnum(a[0]) then [a[0]] else [];
      assert (a + b)[0] == a[0] && (a + b)[1..] == a[1..] + b;
      calc {
        StripNonAlnum(a + b);
        kept + StripNonAlnum(a[1..] + b);
        { StripConcat(a[1..], b); }
        kept + (StripNonAlnum(a[1..]) + StripNonAlnum(b));
        (kept + StripNonAlnum(a[1..])) + StripNonAlnum(b);
      }
    }
  }

  /** Exactly the alphanumeric characters survive, each as often as in the input. */
  lemma {:induction false} StripCounts(s: string, c: char)
    ensures multiset(StripNonAlnum(s))[c] == if IsAlnum(c) then multiset(s)[c] else 0
  {
    if s != [] {
      StripCounts(s[1..], c);
      assert s == [s[0]] + s[1..];
    }
  }

  /** A string is left unchanged exactly when it is already all alphanumeric. */
  lemma {:induction false} StripFixedPoint(s: string)
    ensures StripNonAlnum(s) == s <==> AllAlnum(s)
  {
    if s != [] {
      StripFixedPoint(s[1..]);
      if !IsAlnum(s[0]) {
        assert |StripNonAlnum(s)| < |s|;
      }
    }
  }

  /** `cleanPair` is idempotent. */
  lemma CleanPairIdempotent(raw: Option<string>)
    ensures CleanPair(Some(CleanPair(raw))) == CleanPair(raw)
  {
    StripFixedPoint(CleanPair(raw));
  }

  /** The result is empty exactly when the input is falsy or holds no alphanumeric
      character at all. */
  lemma {:induction false} CleanPairEmpty(raw: Option<string>)
    ensures CleanPair(raw) == "" <==> raw.None? || forall i :: 0 <= i < |raw.value| ==> !IsAlnum(raw.value[i])
  {
    if raw.Some? {
      var s := raw.value;
      forall c | IsAlnum(c) ensures multiset(CleanPair(raw))[c] == multiset(s)[c] {
        StripCounts(s, c);
      }
      if CleanPair(raw) != "" {
        var r := CleanPair(raw);
        assert r[0] in multiset(r);
        assert r[0] in multiset(s);
      }
    }
  }

  /** The catalog: `dumps.map(dump => this.cleanPair(dump))`. */
  function Catalog(dumps: seq<Option<string>>): (pairs: seq<Pair>)
    ensures |pairs| == |dumps|
    ensures forall i :: 0 <= i < |dumps| ==> pairs[i] == CleanPair(dumps[i])
  {
    if dumps == [] then [] else [CleanPair(dumps[0])] + Catalog(dumps[1..])
  }

  /** Every catalog entry is already clean: cleaning it again changes nothing. */
  lemma CatalogEntriesClean(dumps: seq<Option<string>>, i: nat)
    requires i < |dumps|
    ensures AllAlnum(Catalog(dumps)[i])
    ensures CleanPair(Some(Catalog(dumps)[i])) == Catalog(dumps)[i]
  {
    CleanPairIdempotent(dumps[i]);
  }
}
