/**
 * PHP arrays with string keys, as the router uses them for route parameters
 * and query parameters: an ordered list of key/value pairs with distinct keys.
 * Writing an existing key replaces its value in place; writing a new key
 * appends it.
 */
module PhpArrays {
  import opened Base

  type Bag = seq<(string, string)>

  function Keys(b: Bag): (ks: seq<string>)
    ensures |ks| == |b|
    ensures forall i :: 0 <= i < |b| ==> ks[i] == b[i].0
  {
    if b == [] then [] else [b[0].0] + Keys(b[1..])
  }

  predicate DistinctKeys(b: Bag) {
    forall i, j :: 0 <= i < j < |b| ==> b[i].0 != b[j].0
  }

  predicate Distinct(ks: seq<string>) {
    forall i, j :: 0 <= i < j < |ks| ==> ks[i] != ks[j]
  }

  /** `$b[$k] ?? null` */
  function Lookup(b: Bag, k: string): (r: Option<string>)
    ensures r.Some? <==> k in Keys(b)
  {
    if b == [] then None
    else if b[0].0 == k then Some(b[0].1)
    else Lookup(b[1..], k)
  }

  /** `$b[$k] = $v` */
  function Put(b: Bag, k: string, v: string): (r: Bag)
    requires DistinctKeys(b)
    ensures k in Keys(b) ==> Keys(r) == Keys(b)
    ensures k !in Keys(b) ==> Keys(r) == Keys(b) + [k]
    ensures DistinctKeys(r)
  {
    if b == [] then [(k, v)]
    else if b[0].0 == k then [(k, v)] + b[1..]
    else
      var rest := Put(b[1..], k, v);
      assert Keys([b[0]] + rest) == [b[0].0] + Keys(rest);
      assert Keys(b) == [b[0].0] + Keys(b[1..]);
      [b[0]] + rest
  }

  /** After `$b[$k] = $v`, `$k` holds `$v` and every other key what it held before. */
  lemma {:induction false} PutLookup(b: Bag, k: string, v: string, k': string)
    requires DistinctKeys(b)
    ensures Lookup(Put(b, k, v), k') == if k' == k then Some(v) else Lookup(b, k')
  {
    if b != [] && b[0].0 != k {
      PutLookup(b[1..], k, v, k');
      assert ([b[0]] + Put(b[1..], k, v))[1..] == Put(b[1..], k, v);
    } else if b != [] {
      assert ([(k, v)] + b[1..])[1..] == b[1..];
    }
  }

  /**
   * `array_combine($names, $values)`: pairs names with values in order; a
   * repeated name keeps its first position and its last value.
   */
  function Combine(names: seq<string>, values: seq<string>): (r: Bag)
    requires |names| == |values|
    ensures DistinctKeys(r)
    decreases |names|
  {
    if names == [] then []
    else Put(Combine(names[..|names| - 1], values[..|values| - 1]), names[|names| - 1], values[|values| - 1])
  }

  /** `[...$a, ...$b]` for string keys: `$b`'s entries written over `$a` in order. */
  function Merge(a: Bag, b: Bag): (r: Bag)
    requires DistinctKeys(a)
    ensures DistinctKeys(r)
    decreases |b|
  {
    if b == [] then a
    else Put(Merge(a, b[..|b| - 1]), b[|b| - 1].0, b[|b| - 1].1)
  }

  /** Without repeated names, `array_combine` keeps the names in order ... */
  lemma {:induction false} CombineKeys(names: seq<string>, values: seq<string>)
    requires |names| == |values| && Distinct(names)
    ensures Keys(Combine(names, values)) == names
  {
    if names != [] {
      var n, m := names[..|names| - 1], values[..|values| - 1];
      var last := names[|names| - 1];
      InitLast(names);
      DistinctInit(names);
      CombineKeys(n, m);
      PutNewKey(Combine(n, m), last, values[|values| - 1]);
    }
  }

  lemma InitLast<T>(s: seq<T>)
    requires s != []
    ensures s == s[..|s| - 1] + [s[|s| - 1]]
  {
  }

  lemma KeysSnoc(b: Bag)
    requires b != []
    ensures Keys(b) == Keys(b[..|b| - 1]) + [b[|b| - 1].0]
  {
    var init := Keys(b[..|b| - 1]) + [b[|b| - 1].0];
    forall i | 0 <= i < |b| ensures Keys(b)[i] == init[i] {
      if i < |b| - 1 {
        assert b[..|b| - 1][i] == b[i];
      }
    }
  }

  /** Dropping the last name keeps the names distinct, and the last is not among the others. */
  lemma DistinctInit(names: seq<string>)
    requires Distinct(names) && names != []
    ensures Distinct(names[..|names| - 1])
    ensures names[|names| - 1] !in names[..|names| - 1]
  {
    var n := names[..|names| - 1];
    forall i | 0 <= i < |n| ensures n[i] != names[|names| - 1] {
      assert n[i] == names[i];
    }
  }

  /** Writing a key that is not yet present appends it. */
  lemma PutNewKey(b: Bag, k: string, v: string)
    requires DistinctKeys(b) && k !in Keys(b)
    ensures Keys(Put(b, k, v)) == Keys(b) + [k]
  {
  }

  /** ... and pairs each name with the value at the same position. */
  lemma {:induction false} CombineAt(names: seq<string>, values: seq<string>, i: nat)
    requires |names| == |values| && Distinct(names) && i < |names|
    ensures Lookup(Combine(names, values), names[i]) == Some(values[i])
  {
    var n, m := names[..|names| - 1], values[..|values| - 1];
    var last := names[|names| - 1];
    PutLookup(Combine(n, m), last, values[|values| - 1], names[i]);
    if i < |names| - 1 {
      CombineAt(n, m, i);
      assert names[i] == n[i] && values[i] == m[i];
      assert names[i] != last;
    }
  }

  /**
   * Merging keeps the left operand's keys first and in their order, and
   * every key of the result comes from one of the two operands ...
   */
  lemma {:induction false} MergeKeys(a: Bag, b: Bag)
    requires DistinctKeys(a)
    ensures Keys(a) <= Keys(Merge(a, b))
    ensures forall k :: k in Keys(Merge(a, b)) <==> k in Keys(a) || k in Keys(b)
  {
    if b != [] {
      var init, last := b[..|b| - 1], b[|b| - 1];
      MergeKeys(a, init);
      var m := Merge(a, init);
      KeysSnoc(b);
      if last.0 !in Keys(m) {
        assert Keys(m) <= Keys(m) + [last.0];
      }
    }
  }

  /** ... and for a key present in both, the right operand's value wins. */
  lemma {:induction false} MergeLookup(a: Bag, b: Bag, k: string)
    requires DistinctKeys(a) && DistinctKeys(b)
    ensures Lookup(Merge(a, b), k) == if k in Keys(b) then Lookup(b, k) else Lookup(a, k)
  {
    if b != [] {
      var init, last := b[..|b| - 1], b[|b| - 1];
      assert DistinctKeys(init);
      assert b == init + [last];
      LookupSnoc(init, last, k);
      PutLookup(Merge(a, init), last.0, last.1, k);
      if k != last.0 {
        MergeLookup(a, init, k);
      } else {
        assert k !in Keys(init) by {
          forall i | 0 <= i < |init| ensures Keys(init)[i] != k {
            assert init[i] == b[i];
          }
        }
      }
    }
  }

  /** Looking up in a list with one more pair at the end. */
  lemma {:induction false} LookupSnoc(b: Bag, p: (string, string), k: string)
    ensures Lookup(b + [p], k) == if k in Keys(b) then Lookup(b, k) else if k == p.0 then Some(p.1) else None
  {
    if b != [] {
      LookupSnoc(b[1..], p, k);
      assert (b + [p])[1..] == b[1..] + [p];
    }
  }
}
