/**
 * The de-duplication idiom of src/lib/icons/iconService.ts:
 *
 *   Object.values(icons.reduce((acc, icon) => { acc[key(icon)] = icon; return acc }, {}))
 *
 * A JavaScript object lists its non-index keys in the order they were first
 * inserted, and an assignment to an existing key replaces the value in place.
 * The keys used here are icon ids of the form `prefix:name`, which always hold
 * a `:` and so are never array indices: insertion order is the whole story.
 * The net effect is that every key keeps the position of its FIRST occurrence
 * and the record of its LAST occurrence.
 */
module Dedupe {
  import opened Icons

  predicate Distinct(ks: seq<string>)
  {
    forall i, j :: 0 <= i < j < |ks| ==> ks[i] != ks[j]
  }

  function FirstIndex(ks: seq<string>, k: string): (i: nat)
    requires k in ks
    ensures i < |ks| && ks[i] == k && k !in ks[..i]
  {
    if ks[0] == k then 0
    else
      var j := FirstIndex(ks[1..], k);
      assert ks[..j + 1] == [ks[0]] + ks[1..][..j];
      j + 1
  }

  function LastIndex(ks: seq<string>, k: string): (i: nat)
    requires k in ks
    ensures i < |ks| && ks[i] == k && k !in ks[i + 1..]
  {
    if ks[|ks| - 1] == k then |ks| - 1
    else
      var j := LastIndex(ks[..|ks| - 1], k);
      assert ks[j + 1..] == ks[..|ks| - 1][j + 1..] + [ks[|ks| - 1]];
      j
  }

  lemma FirstIndexAppend(ks: seq<string>, x: string, k: string)
    requires k in ks + [x]
    ensures k in ks ==> FirstIndex(ks + [x], k) == FirstIndex(ks, k)
    ensures k !in ks ==> FirstIndex(ks + [x], k) == |ks|
  {
    var all := ks + [x];
    var i := FirstIndex(all, k);
    assert forall p :: 0 <= p < i ==> all[p] == all[..i][p];
    if k in ks {
      var j := FirstIndex(ks, k);
      assert forall p :: 0 <= p < j ==> ks[p] == ks[..j][p];
      assert all[j] == k;
    } else {
      assert forall p :: 0 <= p < |ks| ==> all[p] == ks[p];
    }
  }

  lemma LastIndexAppend(ks: seq<string>, x: string, k: string)
    requires k in ks + [x]
    ensures k == x ==> LastIndex(ks + [x], k) == |ks|
    ensures k != x ==> k in ks && LastIndex(ks + [x], k) == LastIndex(ks, k)
  {
    var all := ks + [x];
    var i := LastIndex(all, k);
    assert forall p :: i < p < |all| ==> all[p] == all[i + 1..][p - i - 1];
    if k != x {
      assert i < |ks| && ks[i] == k;
      var j := LastIndex(ks, k);
      assert forall p :: j < p < |ks| ==> ks[p] == ks[j + 1..][p - j - 1];
      assert all[j] == k;
    }
  }

  /** The accumulator object: its keys in insertion order and the value stored under each. */
  datatype Table = Table(keys: seq<string>, values: map<string, Icon>)

  ghost predicate Valid(t: Table)
  {
    && Distinct(t.keys)
    && (forall k :: k in t.values ==> k in t.keys)
    && (forall j :: 0 <= j < |t.keys| ==> t.keys[j] in t.values)
  }

  /** `acc[k] = v`: a new key goes to the end, an existing key keeps its place and gets the new value. */
  function Put(t: Table, k: string, v: Icon): (r: Table)
    requires Valid(t)
    ensures Valid(r)
  {
    if k in t.values then Table(t.keys, t.values[k := v])
    else Table(t.keys + [k], t.values[k := v])
  }

  /** The object the `reduce` ends with, starting from `{}`. */
  function Reduce(s: seq<Icon>, field: DedupKey): (t: Table)
    ensures Valid(t) && |t.keys| <= |s|
    ensures forall k :: k in t.keys <==> k in Keys(s, field)
  {
    if s == [] then Table([], map[])
    else
      var init, last := s[..|s| - 1], s[|s| - 1];
      var t0 := Reduce(init, field);
      var x := KeyOf(last, field);
      KeysSnoc(s, field);
      var t := Put(t0, x, last);
      assert forall k :: k in t.keys <==> k in t0.keys || k == x;
      t
  }

  lemma KeysSnoc(s: seq<Icon>, field: DedupKey)
    requires s != []
    ensures Keys(s, field) == Keys(s[..|s| - 1], field) + [KeyOf(s[|s| - 1], field)]
  {
  }

  /** `Object.values` of a table: the stored values in key order. */
  function Values(t: Table): (r: seq<Icon>)
    requires Valid(t)
    ensures |r| == |t.keys| && forall j :: 0 <= j < |r| ==> r[j] == t.values[t.keys[j]]
  {
    seq(|t.keys|, j requires 0 <= j < |t.keys| => t.values[t.keys[j]])
  }

  /** The de-duplicated list. */
  function Dedup(s: seq<Icon>, field: DedupKey): (r: seq<Icon>)
    ensures |r| <= |s|
  {
    Values(Reduce(s, field))
  }

  /** Each key is mapped to the record of its last occurrence. */
  lemma {:induction false} ReduceValues(s: seq<Icon>, field: DedupKey)
    ensures var t := Reduce(s, field); var ks := Keys(s, field);
      forall k :: k in t.keys ==> k in ks && t.values[k] == s[LastIndex(ks, k)]
  {
    if s != [] {
      var init, last := s[..|s| - 1], s[|s| - 1];
      var x := KeyOf(last, field);
      var t0, t := Reduce(init, field), Reduce(s, field);
      var ks0, ks := Keys(init, field), Keys(s, field);
      KeysSnoc(s, field);
      ReduceValues(init, field);
      assert t.values == t0.values[x := last];
      forall k | k in t.keys
        ensures k in ks && t.values[k] == s[LastIndex(ks, k)]
      {
        LastIndexAppend(ks0, x, k);
        if k != x {
          assert k in t0.keys;
          assert s[LastIndex(ks0, k)] == init[LastIndex(ks0, k)];
        }
      }
    }
  }

  /** `keys` lists members of `ks`, ordered by where each first occurs in `ks`. */
  predicate FirstOccurrenceOrder(keys: seq<string>, ks: seq<string>)
  {
    && (forall k :: k in keys ==> k in ks)
    && (forall j, j' :: 0 <= j < j' < |keys| ==> FirstIndex(ks, keys[j]) < FirstIndex(ks, keys[j']))
  }

  /** A prefix of an ordered key list is ordered the same way. */
  lemma FirstOccurrenceOrderPrefix(p: seq<string>, keys: seq<string>, ks: seq<string>)
    requires p <= keys && FirstOccurrenceOrder(keys, ks)
    ensures FirstOccurrenceOrder(p, ks)
  {
    assert forall k :: k in p ==> k in keys;
  }

  /** One step of the reduce keeps the accumulator's keys in first-occurrence order. */
  lemma FirstOccurrenceOrderStep(keys: seq<string>, ks: seq<string>, x: string)
    requires FirstOccurrenceOrder(keys, ks)
    ensures x in keys ==> FirstOccurrenceOrder(keys, ks + [x])
    ensures x !in ks ==> FirstOccurrenceOrder(keys + [x], ks + [x])
  {
    forall j | 0 <= j < |keys|
      ensures FirstIndex(ks + [x], keys[j]) == FirstIndex(ks, keys[j])
    {
      FirstIndexAppend(ks, x, keys[j]);
    }
    if x !in ks {
      FirstIndexAppend(ks, x, x);
      var keys' := keys + [x];
      forall j, j' | 0 <= j < j' < |keys'|
        ensures FirstIndex(ks + [x], keys'[j]) < FirstIndex(ks + [x], keys'[j'])
      {
        assert keys'[j] == keys[j];
      }
    }
  }

  /** The keys of the accumulator are listed in the order of their first occurrence. */
  lemma {:induction false} ReduceOrder(s: seq<Icon>, field: DedupKey)
    ensures FirstOccurrenceOrder(Reduce(s, field).keys, Keys(s, field))
  {
    if s != [] {
      var init, last := s[..|s| - 1], s[|s| - 1];
      var x := KeyOf(last, field);
      var t0 := Reduce(init, field);
      KeysSnoc(s, field);
      ReduceOrder(init, field);
      FirstOccurrenceOrderStep(t0.keys, Keys(init, field), x);
    }
  }

  /** The keys of the de-duplicated list are the accumulator's keys, in its order. */
  lemma DedupKeysAreTableKeys(s: seq<Icon>, field: DedupKey)
    ensures Keys(Dedup(s, field), field) == Reduce(s, field).keys
  {
    var t, r, ks := Reduce(s, field), Dedup(s, field), Keys(s, field);
    ReduceValues(s, field);
    forall j | 0 <= j < |r|
      ensures KeyOf(r[j], field) == t.keys[j]
    {
      assert ks[LastIndex(ks, t.keys[j])] == t.keys[j];
    }
  }

  /** No key occurs twice in the de-duplicated list. */
  lemma DedupDistinct(s: seq<Icon>, field: DedupKey)
    ensures Distinct(Keys(Dedup(s, field), field))
  {
    DedupKeysAreTableKeys(s, field);
  }

  /** Every key of the input survives, and no other key appears. */
  lemma DedupSameKeys(s: seq<Icon>, field: DedupKey)
    ensures forall k :: k in Keys(Dedup(s, field), field) <==> k in Keys(s, field)
  {
    DedupKeysAreTableKeys(s, field);
  }

  /** Each surviving record is the one at the last input position with its key. */
  lemma DedupKeepsLast(s: seq<Icon>, field: DedupKey)
    ensures var r, ks := Dedup(s, field), Keys(s, field);
      forall j :: 0 <= j < |r| ==> KeyOf(r[j], field) in ks && r[j] == s[LastIndex(ks, KeyOf(r[j], field))]
  {
    var r := Dedup(s, field);
    DedupKeysAreTableKeys(s, field);
    ReduceValues(s, field);
    assert forall j :: 0 <= j < |r| ==> KeyOf(r[j], field) == Reduce(s, field).keys[j];
  }

  /** The surviving keys come in the order of their first occurrence in the input. */
  lemma DedupFirstOccurrenceOrder(s: seq<Icon>, field: DedupKey)
    ensures FirstOccurrenceOrder(Keys(Dedup(s, field), field), Keys(s, field))
  {
    DedupKeysAreTableKeys(s, field);
    ReduceOrder(s, field);
  }

  /** Every record of the result is a record of the input. */
  lemma DedupSubset(s: seq<Icon>, field: DedupKey)
    ensures forall icon :: icon in Dedup(s, field) ==> icon in s
  {
    DedupKeepsLast(s, field);
    forall icon | icon in Dedup(s, field)
      ensures icon in s
    {
      var r := Dedup(s, field);
      var j :| 0 <= j < |r| && r[j] == icon;
    }
  }

  /** A list whose keys are already distinct comes back unchanged. */
  lemma DedupOfDistinct(s: seq<Icon>, field: DedupKey)
    requires Distinct(Keys(s, field))
    ensures Dedup(s, field) == s
  {
    var t, ks := Reduce(s, field), Keys(s, field);
    ReduceKeysOfDistinct(s, field);
    ReduceValues(s, field);
    var r := Dedup(s, field);
    forall j | 0 <= j < |s|
      ensures r[j] == s[j]
    {
      assert r[j] == t.values[ks[j]];
      DistinctLastIndex(ks, j);
    }
  }

  /** Without repeated keys the accumulator's keys are the input's keys, in input order. */
  lemma ReduceKeysOfDistinct(s: seq<Icon>, field: DedupKey)
    requires Distinct(Keys(s, field))
    ensures Reduce(s, field).keys == Keys(s, field)
  {
    ReduceOrder(s, field);
    DistinctOrderedIsSame(Reduce(s, field).keys, Keys(s, field));
  }

  lemma DistinctLastIndex(ks: seq<string>, j: nat)
    requires Distinct(ks) && j < |ks|
    ensures LastIndex(ks, ks[j]) == j
  {
    var i := LastIndex(ks, ks[j]);
    assert ks[i] == ks[j];
  }

  /** Distinct keys in first-occurrence order of a distinct list, covering all of it, are that list. */
  lemma DistinctOrderedIsSame(keys: seq<string>, ks: seq<string>)
    requires Distinct(keys) && Distinct(ks) && FirstOccurrenceOrder(keys, ks)
    requires forall k :: k in ks ==> k in keys
    ensures keys == ks
  {
    DistinctKeysCount(ks, keys);
    forall j | 0 <= j < |ks|
      ensures keys[j] == ks[j]
    {
      KeysInFirstOrder(ks, keys, j);
    }
  }

  /** Two distinct key lists with the same members have the same length. */
  lemma {:induction false} DistinctKeysCount(a: seq<string>, b: seq<string>)
    requires Distinct(a) && Distinct(b)
    requires forall k :: k in a <==> k in b
    ensures |a| == |b|
  {
    var sa, sb := set k | k in a, set k | k in b;
    assert sa == sb;
    DistinctCard(a);
    DistinctCard(b);
  }

  lemma {:induction false} DistinctCard(a: seq<string>)
    requires Distinct(a)
    ensures |set k | k in a| == |a|
  {
    if a != [] {
      var init := a[..|a| - 1];
      assert forall k :: k in a <==> k in init || k == a[|a| - 1];
      assert a[|a| - 1] !in init;
      assert (set k | k in a) == (set k | k in init) + {a[|a| - 1]};
      DistinctCard(init);
    }
  }

  /**
   * When `ks` is itself distinct and `keys` lists the same members in order of
   * first occurrence, the two lists agree position by position.
   */
  lemma {:induction false} KeysInFirstOrder(ks: seq<string>, keys: seq<string>, j: nat)
    requires Distinct(ks) && |keys| == |ks| && j < |ks|
    requires forall k :: k in keys <==> k in ks
    requires FirstOccurrenceOrder(keys, ks)
    ensures keys[j] == ks[j]
  {
    // The positions FirstIndex(ks, keys[i]) form a strictly increasing map
    // from [0, n) into [0, n), which must be the identity.
    var n := |ks|;
    StrictlyIncreasingIsIdentity(seq(n, i requires 0 <= i < n => FirstIndex(ks, keys[i])), n, j);
    assert ks[FirstIndex(ks, keys[j])] == keys[j];
  }

  lemma {:induction false} StrictlyIncreasingIsIdentity(p: seq<nat>, n: nat, j: nat)
    requires |p| == n && j < n
    requires forall i :: 0 <= i < n ==> p[i] < n
    requires forall i, i' :: 0 <= i < i' < n ==> p[i] < p[i']
    ensures p[j] == j
  {
    AtLeastIndex(p, n, j);
    AtMostIndex(p, n, j);
  }

  lemma {:induction false} AtLeastIndex(p: seq<nat>, n: nat, j: nat)
    requires |p| == n && j < n
    requires forall i, i' :: 0 <= i < i' < n ==> p[i] < p[i']
    ensures p[j] >= j
  {
    if j > 0 {
      AtLeastIndex(p, n, j - 1);
    }
  }

  lemma {:induction false} AtMostIndex(p: seq<nat>, n: nat, j: nat)
    requires |p| == n && j < n
    requires forall i :: 0 <= i < n ==> p[i] < n
    requires forall i, i' :: 0 <= i < i' < n ==> p[i] < p[i']
    ensures p[j] <= j
    decreases n - j
  {
    if j < n - 1 {
      AtMostIndex(p, n, j + 1);
    }
  }

  /** De-duplicating twice is de-duplicating once. */
  lemma DedupIdempotent(s: seq<Icon>, field: DedupKey)
    ensures Dedup(Dedup(s, field), field) == Dedup(s, field)
  {
    DedupDistinct(s, field);
    DedupOfDistinct(Dedup(s, field), field);
  }

  /** Every value is stored under its own key. */
  ghost predicate WellKeyed(t: Table, field: DedupKey)
    requires Valid(t)
  {
    forall k :: k in t.values ==> KeyOf(t.values[k], field) == k
  }

  /** The same reduce, started from an accumulator that already holds entries. */
  function ReduceFrom(t: Table, s: seq<Icon>, field: DedupKey): (r: Table)
    requires Valid(t)
    ensures Valid(r)
  {
    if s == [] then t
    else
      var last := s[|s| - 1];
      Put(ReduceFrom(t, s[..|s| - 1], field), KeyOf(last, field), last)
  }

  /** Reducing a concatenation is reducing the second part into the result of the first. */
  lemma {:induction false} ReduceAppend(a: seq<Icon>, b: seq<Icon>, field: DedupKey)
    ensures Reduce(a + b, field) == ReduceFrom(Reduce(a, field), b, field)
    decreases |b|
  {
    if b == [] {
      assert a + b == a;
    } else {
      var b' := b[..|b| - 1];
      assert (a + b)[..|a + b| - 1] == a + b';
      assert (a + b)[|a + b| - 1] == b[|b| - 1];
      ReduceAppend(a, b', field);
    }
  }

  lemma ReduceWellKeyed(s: seq<Icon>, field: DedupKey)
    ensures WellKeyed(Reduce(s, field), field)
  {
    var t, ks := Reduce(s, field), Keys(s, field);
    ReduceValues(s, field);
    forall k | k in t.values
      ensures KeyOf(t.values[k], field) == k
    {
      assert ks[LastIndex(ks, k)] == k;
    }
  }

  /** The accumulator without its newest key. */
  function DropLast(t: Table): (r: Table)
    requires Valid(t) && t.keys != []
    ensures Valid(r)
  {
    DropLastValid(t);
    Table(t.keys[..|t.keys| - 1], t.values - {t.keys[|t.keys| - 1]})
  }

  lemma DropLastValid(t: Table)
    requires Valid(t) && t.keys != []
    ensures Valid(Table(t.keys[..|t.keys| - 1], t.values - {t.keys[|t.keys| - 1]}))
  {
    var n := |t.keys|;
    var k := t.keys[n - 1];
    var keys', values' := t.keys[..n - 1], t.values - {k};
    forall j | 0 <= j < n - 1
      ensures keys'[j] in values'
    {
      assert keys'[j] == t.keys[j] != k;
    }
    forall x | x in values'
      ensures x in keys'
    {
      var j :| 0 <= j < n && t.keys[j] == x;
      assert j != n - 1;
      assert keys'[j] == x;
    }
  }

  lemma ValuesDropLast(t: Table)
    requires Valid(t) && t.keys != []
    ensures Values(t) == Values(DropLast(t)) + [t.values[t.keys[|t.keys| - 1]]]
  {
    var n, k := |t.keys|, t.keys[|t.keys| - 1];
    var t' := DropLast(t);
    var vs, vs' := Values(t), Values(t') + [t.values[k]];
    forall j | 0 <= j < n
      ensures vs[j] == vs'[j]
    {
      if j < n - 1 {
        assert t'.keys[j] == t.keys[j] != k;
      }
    }
  }

  lemma PutDropLast(t: Table)
    requires Valid(t) && t.keys != []
    ensures var k := t.keys[|t.keys| - 1]; Put(DropLast(t), k, t.values[k]) == t
  {
    var k := t.keys[|t.keys| - 1];
    var t' := DropLast(t);
    assert k !in t'.values;
    assert t'.keys + [k] == t.keys;
    assert t'.values[k := t.values[k]] == t.values;
  }

  /** Re-reducing the values of a well-keyed accumulator rebuilds it exactly. */
  lemma {:induction false} ReduceValuesRoundTrip(t: Table, field: DedupKey)
    requires Valid(t) && WellKeyed(t, field)
    ensures Reduce(Values(t), field) == t
    decreases |t.keys|
  {
    var vs := Values(t);
    if t.keys == [] {
      assert t.values == map[];
    } else {
      var k := t.keys[|t.keys| - 1];
      var t' := DropLast(t);
      assert WellKeyed(t', field);
      ReduceValuesRoundTrip(t', field);
      ValuesDropLast(t);
      assert vs[..|vs| - 1] == Values(t');
      assert KeyOf(vs[|vs| - 1], field) == k;
      PutDropLast(t);
    }
  }

  /**
   * De-duplicating a list that begins with an already de-duplicated part gives
   * the same result as de-duplicating the original part: an earlier pass over
   * a prefix, with the same key, changes nothing.
   */
  lemma DedupAbsorbs(a: seq<Icon>, b: seq<Icon>, field: DedupKey)
    ensures Dedup(Dedup(a, field) + b, field) == Dedup(a + b, field)
  {
    ReduceWellKeyed(a, field);
    ReduceValuesRoundTrip(Reduce(a, field), field);
    ReduceAppend(Dedup(a, field), b, field);
    ReduceAppend(a, b, field);
  }

  /**
   * The reduce written out as the loop it performs, followed by the walk
   * `Object.values` does over the keys.
   */
  method DedupeIcons(icons: seq<Icon>, field: DedupKey) returns (r: seq<Icon>)
    ensures r == Dedup(icons, field)
  {
    var acc := ReduceIntoObject(icons, field);
    r := ObjectValues(acc);
  }

  /** `icons.reduce((acc, icon) => { acc[key] = icon; return acc }, {})`. */
  method ReduceIntoObject(icons: seq<Icon>, field: DedupKey) returns (acc: Table)
    ensures acc == Reduce(icons, field)
  {
    acc := Table([], map[]);
    var i := 0;
    while i < |icons|
      invariant 0 <= i <= |icons|
      invariant acc == Reduce(icons[..i], field)
    {
      assert icons[..i + 1][..i] == icons[..i];
      acc := Put(acc, KeyOf(icons[i], field), icons[i]);
      i := i + 1;
    }
    assert icons[..i] == icons;
  }

  /** `Object.values(acc)`. */
  method ObjectValues(acc: Table) returns (r: seq<Icon>)
    requires Valid(acc)
    ensures r == Values(acc)
  {
    r := [];
    var j := 0;
    while j < |acc.keys|
      invariant 0 <= j <= |acc.keys|
      invariant r == Values(acc)[..j]
    {
      r := r + [acc.values[acc.keys[j]]];
      j := j + 1;
    }
  }
}
