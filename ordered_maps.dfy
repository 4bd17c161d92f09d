/**
 * JavaScript plain objects used as dictionaries with string keys. Such an object
 * remembers the order in which its keys were first assigned (`Object.entries`
 * lists them in that order), so it is modelled as that key order plus a map.
 */
module OrderedMaps {

  /** No key appears twice. */
  predicate Distinct(keys: seq<string>) {
    keys == [] || (Distinct(keys[..|keys| - 1]) && keys[|keys| - 1] !in keys[..|keys| - 1])
  }

  /** An insertion-ordered dictionary: `keys` in first-assignment order, `vals` the entries. */
  datatype ODict<V> = ODict(keys: seq<string>, vals: map<string, V>)
  {
    /** The key order lists exactly the keys of the map, once each. */
    ghost predicate Valid() {
      Distinct(keys) && forall k :: k in vals <==> k in keys
    }
  }

  /** `{}` */
  function Empty<V>(): (d: ODict<V>)
    ensures d.Valid() && d.keys == [] && d.vals == map[]
  {
    ODict([], map[])
  }

  /** An object of counters, such as `punishmentsByType`. */
  type Counts = ODict<nat>

  /** `acc[k] || 0`: the counter for `k`, zero when it was never set. */
  function Get(c: Counts, k: string): nat {
    if k in c.vals then c.vals[k] else 0
  }

  /** The sum of `g` over the entries, taken in key order (missing keys add nothing). */
  function SumOf<V>(keys: seq<string>, vals: map<string, V>, g: V -> nat): nat {
    if keys == [] then 0
    else
      var k := keys[|keys| - 1];
      SumOf(keys[..|keys| - 1], vals, g) + (if k in vals then g(vals[k]) else 0)
  }

  function Itself(n: nat): nat { n }

  function Length<R>(s: seq<R>): nat { |s| }

  /** `Object.values(c).reduce((sum, n) => sum + n, 0)` */
  function Sum(c: Counts): nat {
    SumOf(c.keys, c.vals, Itself)
  }

  /** The number of records over all the lists of a dictionary of lists. */
  function RecordCount<R>(t: ODict<seq<R>>): nat {
    SumOf(t.keys, t.vals, Length)
  }

  /** Two dictionaries whose entries agree under `f` and `g` on every listed key have equal sums. */
  lemma {:induction false} SumOfAgree<V, W>(keys: seq<string>, a: map<string, V>, f: V -> nat,
                                            b: map<string, W>, g: W -> nat)
    requires forall k :: k in keys ==> (k in a <==> k in b)
    requires forall k :: k in keys && k in a ==> f(a[k]) == g(b[k])
    ensures SumOf(keys, a, f) == SumOf(keys, b, g)
    decreases |keys|
  {
    if keys != [] {
      SumOfAgree(keys[..|keys| - 1], a, f, b, g);
    }
  }

  /** Replacing the entry of one listed key changes the sum by the difference of the two entries. */
  lemma {:induction false} SumOfUpdate<V>(keys: seq<string>, vals: map<string, V>, g: V -> nat,
                                          k: string, v: V)
    requires Distinct(keys) && k in keys
    ensures SumOf(keys, vals[k := v], g) + (if k in vals then g(vals[k]) else 0)
         == SumOf(keys, vals, g) + g(v)
    decreases |keys|
  {
    var init, last := keys[..|keys| - 1], keys[|keys| - 1];
    if last == k {
      assert k !in init;
      SumOfAgree(init, vals[k := v], g, vals, g);
    } else {
      assert k in init;
      SumOfUpdate(init, vals, g, k, v);
    }
  }

  /** Adding an entry under a key that is not listed leaves the sum over the listed keys alone. */
  lemma SumOfFresh<V>(keys: seq<string>, vals: map<string, V>, g: V -> nat, k: string, v: V)
    requires k !in keys
    ensures SumOf(keys, vals[k := v], g) == SumOf(keys, vals, g)
    ensures SumOf(keys + [k], vals[k := v], g) == SumOf(keys, vals, g) + g(v)
  {
    SumOfAgree(keys, vals[k := v], g, vals, g);
    assert (keys + [k])[..|keys|] == keys;
  }

  /** Listing a new key last keeps a dictionary well formed. */
  lemma ValidExtend<V>(d: ODict<V>, k: string, v: V)
    requires d.Valid() && k !in d.vals
    ensures ODict(d.keys + [k], d.vals[k := v]).Valid()
  {
    assert (d.keys + [k])[..|d.keys|] == d.keys;
  }

  /** `acc[k] = (acc[k] || 0) + 1`: one more occurrence of `k`. */
  function Bump(c: Counts, k: string): (r: Counts)
    requires c.Valid()
    ensures r.Valid()
    ensures Get(r, k) == Get(c, k) + 1
    ensures forall k' :: k' != k ==> Get(r, k') == Get(c, k')
    ensures r.vals == c.vals[k := Get(c, k) + 1]
    ensures r.keys == if k in c.vals then c.keys else c.keys + [k]
    ensures Sum(r) == Sum(c) + 1
  {
    if k in c.vals then
      SumOfUpdate(c.keys, c.vals, Itself, k, c.vals[k] + 1);
      ODict(c.keys, c.vals[k := c.vals[k] + 1])
    else
      SumOfFresh(c.keys, c.vals, Itself, k, 1);
      ValidExtend(c, k, 1);
      ODict(c.keys + [k], c.vals[k := 1])
  }

  /**
   * `if (!t[k]) t[k] = []; t[k].push(x)`: `x` goes at the end of the list under `k`,
   * which is created (and listed last) when `k` is new.
   */
  function Append<R>(t: ODict<seq<R>>, k: string, x: R): (r: ODict<seq<R>>)
    requires t.Valid()
    ensures r.Valid()
    ensures r.vals == t.vals[k := (if k in t.vals then t.vals[k] else []) + [x]]
    ensures r.keys == if k in t.vals then t.keys else t.keys + [k]
    ensures RecordCount(r) == RecordCount(t) + 1
  {
    if k in t.vals then
      SumOfUpdate(t.keys, t.vals, Length, k, t.vals[k] + [x]);
      ODict(t.keys, t.vals[k := t.vals[k] + [x]])
    else
      SumOfFresh(t.keys, t.vals, Length, k, [x]);
      ValidExtend(t, k, [x]);
      assert [] + [x] == [x];
      ODict(t.keys + [k], t.vals[k := [x]])
  }

  /** How many elements of `xs` have key `k`. */
  function CountKey<X>(xs: seq<X>, key: X -> string, k: string): nat {
    if xs == [] then 0
    else CountKey(xs[..|xs| - 1], key, k) + (if key(xs[|xs| - 1]) == k then 1 else 0)
  }

  lemma {:induction false} CountKeyConcat<X>(a: seq<X>, b: seq<X>, key: X -> string, k: string)
    ensures CountKey(a + b, key, k) == CountKey(a, key, k) + CountKey(b, key, k)
    decreases |b|
  {
    if b == [] {
      assert a + b == a;
    } else {
      assert (a + b)[..|a + b| - 1] == a + b[..|b| - 1];
      CountKeyConcat(a, b[..|b| - 1], key, k);
    }
  }

  /** Counting by key does not depend on the order of the elements. */
  lemma {:induction false} CountKeyPerm<X>(xs: seq<X>, ys: seq<X>, key: X -> string, k: string)
    requires multiset(xs) == multiset(ys)
    ensures CountKey(xs, key, k) == CountKey(ys, key, k)
    decreases |xs|
  {
    if xs == [] {
      assert |ys| == |multiset(ys)| == 0;
    } else {
      var init, last := xs[..|xs| - 1], xs[|xs| - 1];
      assert multiset(xs) == multiset(init) + multiset{last} by {
        assert xs == init + [last];
      }
      assert last in multiset(ys);
      var i :| 0 <= i < |ys| && ys[i] == last;
      var others := ys[..i] + ys[i + 1..];
      MultisetRemove(ys, i);
      assert multiset(init) == multiset(others);
      CountKeyPerm(init, others, key, k);
      CountKeyRemove(ys, i, key, k);
    }
  }

  /** Taking out the element at `i` takes one copy of it out of the multiset. */
  lemma MultisetRemove<X>(ys: seq<X>, i: nat)
    requires i < |ys|
    ensures multiset(ys[..i] + ys[i + 1..]) == multiset(ys) - multiset{ys[i]}
  {
    assert ys == ys[..i] + [ys[i]] + ys[i + 1..];
  }

  /** Taking out the element at `i` lowers the count of its key by one. */
  lemma CountKeyRemove<X>(ys: seq<X>, i: nat, key: X -> string, k: string)
    requires i < |ys|
    ensures CountKey(ys, key, k) == CountKey(ys[..i] + ys[i + 1..], key, k) + (if key(ys[i]) == k then 1 else 0)
  {
    var before, x, after := ys[..i], ys[i], ys[i + 1..];
    assert ys == (before + [x]) + after;
    CountKeyConcat(before + [x], after, key, k);
    CountKeyConcat(before, [x], key, k);
    CountKeyConcat(before, after, key, k);
    CountKeyOne(x, key, k);
  }

  /** A one-element sequence counts its key once. */
  lemma CountKeyOne<X>(x: X, key: X -> string, k: string)
    ensures CountKey([x], key, k) == if key(x) == k then 1 else 0
  {
    assert [x][..0] == [];
  }

  /** The position of the first element of `xs` with key `k`, or `|xs|` when there is none. */
  function FirstAt<X>(xs: seq<X>, key: X -> string, k: string): (r: nat)
    ensures r <= |xs|
    ensures r < |xs| ==> key(xs[r]) == k
    ensures forall j :: 0 <= j < r ==> key(xs[j]) != k
  {
    if xs == [] then 0
    else
      var r := FirstAt(xs[..|xs| - 1], key, k);
      if r < |xs| - 1 || key(xs[|xs| - 1]) == k then r else |xs|
  }

  /** A key occurs exactly when it has a first position. */
  lemma {:induction false} FirstAtCount<X>(xs: seq<X>, key: X -> string, k: string)
    ensures FirstAt(xs, key, k) < |xs| <==> CountKey(xs, key, k) > 0
    decreases |xs|
  {
    if xs != [] {
      FirstAtCount(xs[..|xs| - 1], key, k);
    }
  }

  /** The keys of `xs`, once each, in the order they first appear. */
  function Appearances<X>(xs: seq<X>, key: X -> string): (keys: seq<string>)
    ensures Distinct(keys)
    ensures forall k :: k in keys <==> CountKey(xs, key, k) > 0
  {
    if xs == [] then []
    else
      var keys := Appearances(xs[..|xs| - 1], key);
      var k := key(xs[|xs| - 1]);
      if k in keys then keys
      else
        assert (keys + [k])[..|keys|] == keys;
        keys + [k]
  }

  /** Keys listed in order of first appearance in `xs`. */
  predicate FirstAppearanceOrder<X>(keys: seq<string>, xs: seq<X>, key: X -> string) {
    forall i, j :: 0 <= i < j < |keys| ==> FirstAt(xs, key, keys[i]) < FirstAt(xs, key, keys[j])
  }

  /** `Appearances` lists each key before every key that first appears later. */
  lemma {:induction false} AppearancesOrder<X>(xs: seq<X>, key: X -> string)
    ensures FirstAppearanceOrder(Appearances(xs, key), xs, key)
    decreases |xs|
  {
    if xs != [] {
      var init, k := xs[..|xs| - 1], key(xs[|xs| - 1]);
      var before := Appearances(init, key);
      AppearancesOrder(init, key);
      forall i | 0 <= i < |before| ensures FirstAt(xs, key, before[i]) == FirstAt(init, key, before[i]) < |init| {
        FirstAtCount(init, key, before[i]);
      }
      if k !in before {
        FirstAtCount(init, key, k);
        AppendedLast(before, k, xs, key);
      }
    }
  }

  /** A key appended after keys that all first appear earlier keeps the order. */
  lemma AppendedLast<X>(before: seq<string>, k: string, xs: seq<X>, key: X -> string)
    requires xs != [] && FirstAppearanceOrder(before, xs[..|xs| - 1], key)
    requires forall i :: 0 <= i < |before| ==> FirstAt(xs, key, before[i]) == FirstAt(xs[..|xs| - 1], key, before[i]) < |xs| - 1
    requires FirstAt(xs, key, k) == |xs| - 1
    ensures FirstAppearanceOrder(before + [k], xs, key)
  {
    var keys := before + [k];
    forall i, j | 0 <= i < j < |keys| ensures FirstAt(xs, key, keys[i]) < FirstAt(xs, key, keys[j]) {
      assert keys[i] == before[i];
      if j < |before| {
        assert keys[j] == before[j];
      }
    }
  }

  /**
   * `xs.forEach(x => acc[key(x)] = (acc[key(x)] || 0) + 1)` from `{}`: each key is
   * counted as often as it occurs, only occurring keys are present, they are listed
   * in order of first appearance (see `AppearancesOrder`), and the counters add up
   * to the number of elements.
   */
  function Tally<X>(xs: seq<X>, key: X -> string): (c: Counts)
    ensures c.Valid()
    ensures Sum(c) == |xs|
    ensures forall k :: Get(c, k) == CountKey(xs, key, k)
    ensures forall k :: k in c.vals <==> CountKey(xs, key, k) > 0
    ensures c.keys == Appearances(xs, key)
  {
    if xs == [] then Empty()
    else Bump(Tally(xs[..|xs| - 1], key), key(xs[|xs| - 1]))
  }

  /** `keys` with every `k` taken out, the others in their order. */
  function Without(keys: seq<string>, k: string): (r: seq<string>)
    ensures forall x :: x in r <==> x in keys && x != k
  {
    if keys == [] then []
    else
      var rest := Without(keys[..|keys| - 1], k);
      if keys[|keys| - 1] == k then rest else rest + [keys[|keys| - 1]]
  }

  /**
   * The same count, skipping elements whose key is the empty string (the
   * `if (p.world) ...` guard: `""` is falsy in JavaScript). `TallyPresentOrder`
   * gives the order of the keys.
   */
  function TallyPresent<X>(xs: seq<X>, key: X -> string): (c: Counts)
    ensures c.Valid()
    ensures Sum(c) + CountKey(xs, key, "") == |xs|
    ensures forall k :: k != "" ==> Get(c, k) == CountKey(xs, key, k)
    ensures "" !in c.vals
    ensures forall k :: k != "" ==> (k in c.vals <==> CountKey(xs, key, k) > 0)
  {
    if xs == [] then Empty()
    else
      var c := TallyPresent(xs[..|xs| - 1], key);
      var k := key(xs[|xs| - 1]);
      if k == "" then c else Bump(c, k)
  }

  /** `TallyPresent` lists its keys in order of first appearance, with `""` left out. */
  lemma {:induction false} TallyPresentOrder<X>(xs: seq<X>, key: X -> string)
    ensures TallyPresent(xs, key).keys == Without(Appearances(xs, key), "")
    decreases |xs|
  {
    if xs != [] {
      var init, k := xs[..|xs| - 1], key(xs[|xs| - 1]);
      TallyPresentOrder(init, key);
      var before := Appearances(init, key);
      assert (before + [k])[..|before|] == before;
    }
  }
}
