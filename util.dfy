/**
 * The helpers of class `Util` that the core uses: the JSON check, the
 * readable random word generator and the cartesian product of iterator
 * value lists.
 */
module Util {
  import opened Values

  // ---------------------------------------------------------------------------
  // isJSON

  /**
   * `isJSON`: false for the empty string (which the JSON decoder of the
   * runtime mishandles), otherwise whether `decodes` accepts the text.
   */
  function IsJSON(s: string, decodes: string -> bool): (r: bool)
    ensures |s| == 0 ==> !r
    ensures |s| > 0 ==> (r <==> decodes(s))
  {
    |s| > 0 && decodes(s)
  }

  // ---------------------------------------------------------------------------
  // readableRandomString

  const CONSONANTS: string := "bcdfghjklmnprstvwxyz"
  const VOWELS: string := "aeiou"

  /** The `i`-th draw of the random generator, reduced to an index below `bound`. */
  function Pick(rand: nat -> nat, i: nat, bound: nat): (k: nat)
    requires bound > 0
    ensures k < bound
  {
    rand(i) % bound
  }

  /**
   * `readableRandomString($length)`: `floor(length / 2)` consonant-vowel pairs,
   * then one more vowel when that is still shorter than `length`. The random
   * generator is the parameter `rand`; its `i`-th draw picks the `i`-th letter.
   */
  method ReadableRandomString(length: int, rand: nat -> nat) returns (s: string)
    ensures |s| == if length < 0 then 0 else length
    ensures forall i :: 0 <= i < |s| && i % 2 == 0 && i < 2 * (length / 2) ==>
              s[i] == CONSONANTS[Pick(rand, i, |CONSONANTS|)]
    ensures forall i :: 0 <= i < |s| && !(i % 2 == 0 && i < 2 * (length / 2)) ==>
              s[i] == VOWELS[Pick(rand, i, |VOWELS|)]
  {
    s := "";
    var max := length / 2;
    var i := 0;
    while i < max
      invariant 0 <= i && (max >= 0 ==> i <= max) && (max < 0 ==> i == 0)
      invariant |s| == 2 * i
      invariant forall k :: 0 <= k < |s| && k % 2 == 0 ==> s[k] == CONSONANTS[Pick(rand, k, |CONSONANTS|)]
      invariant forall k :: 0 <= k < |s| && k % 2 == 1 ==> s[k] == VOWELS[Pick(rand, k, |VOWELS|)]
    {
      s := s + [CONSONANTS[Pick(rand, 2 * i, |CONSONANTS|)]];
      s := s + [VOWELS[Pick(rand, 2 * i + 1, |VOWELS|)]];
      i := i + 1;
    }
    assert 2 * (length / 2) == length - length % 2;
    if |s| < length {
      s := s + [VOWELS[Pick(rand, |s|, |VOWELS|)]];
    }
  }

  /** Every letter of the word is a consonant where a pair starts and a vowel elsewhere. */
  lemma ReadableShape(s: string, length: int, rand: nat -> nat)
    requires |s| == if length < 0 then 0 else length
    requires forall i :: 0 <= i < |s| && i % 2 == 0 && i < 2 * (length / 2) ==>
               s[i] == CONSONANTS[Pick(rand, i, |CONSONANTS|)]
    requires forall i :: 0 <= i < |s| && !(i % 2 == 0 && i < 2 * (length / 2)) ==>
               s[i] == VOWELS[Pick(rand, i, |VOWELS|)]
    ensures forall i :: 0 <= i < |s| && i % 2 == 0 && i + 1 < |s| ==> s[i] in CONSONANTS
    ensures forall i :: 0 <= i < |s| && i % 2 == 1 ==> s[i] in VOWELS
    ensures |s| % 2 == 1 ==> s[|s| - 1] in VOWELS
  {
    forall i | 0 <= i < |s| && i % 2 == 0 && i + 1 < |s|
      ensures s[i] in CONSONANTS
    {
      assert i < 2 * (length / 2);
    }
    forall i | 0 <= i < |s| && i % 2 == 1
      ensures s[i] in VOWELS
    {
    }
    if |s| % 2 == 1 {
      assert !(|s| - 1 < 2 * (length / 2));
    }
  }

  // ---------------------------------------------------------------------------
  // cartesian

  /** One combination: a value for each key whose list is not empty. */
  type Combination = map<string, Value>

  /** The input of `cartesian`: an ordered dictionary from key to its list of values. */
  type Lists = seq<(string, seq<Value>)>

  /** `[$key => $value]` for each value, in order: how the first non-empty list seeds the product. */
  function Seed(key: string, values: seq<Value>): (r: seq<Combination>)
    ensures |r| == |values|
    ensures forall k :: 0 <= k < |r| ==> r[k] == map[key := values[k]]
  {
    seq(|values|, k requires 0 <= k < |values| => map[key := values[k]])
  }

  /** Step 1: every existing combination gets `key` set to `v` in place. */
  function SetAll(products: seq<Combination>, key: string, v: Value): (r: seq<Combination>)
    ensures |r| == |products|
    ensures forall j :: 0 <= j < |r| ==> r[j] == products[j][key := v]
  {
    seq(|products|, j requires 0 <= j < |products| => products[j][key := v])
  }

  /** The copies of one combination with `key` set to each of `values`, in order. */
  function Variants(p: Combination, key: string, values: seq<Value>): seq<Combination> {
    if |values| == 0 then []
    else Variants(p, key, values[..|values| - 1]) + [p[key := values[|values| - 1]]]
  }

  /** Step 2: the copies appended for every combination, combination by combination. */
  function Copies(products: seq<Combination>, key: string, rest: seq<Value>): seq<Combination> {
    if |products| == 0 then []
    else Copies(products[..|products| - 1], key, rest) + Variants(products[|products| - 1], key, rest)
  }

  /** How one `(key, values)` entry of the input changes the product built so far. */
  function Step(result: seq<Combination>, key: string, values: seq<Value>): seq<Combination> {
    if |values| == 0 then result
    else if |result| == 0 then Seed(key, values)
    else SetAll(result, key, values[0]) + Copies(result, key, values[1..])
  }

  /** The product after the whole input: the entries folded in from the first. */
  function CartesianOf(input: Lists): seq<Combination> {
    if |input| == 0 then []
    else Step(CartesianOf(input[..|input| - 1]), input[|input| - 1].0, input[|input| - 1].1)
  }

  /** `cartesian($input)`: the seeding loop and the in-place extension with an append buffer. */
  method Cartesian(input: Lists) returns (result: seq<Combination>)
    ensures result == CartesianOf(input)
  {
    result := [];
    var i := 0;
    while i < |input|
      invariant 0 <= i <= |input|
      invariant result == CartesianOf(input[..i])
    {
      assert input[..i + 1][..i] == input[..i];
      var (key, values) := input[i];
      if |values| == 0 {
        i := i + 1;
        continue;
      }
      if |result| == 0 {
        var k := 0;
        while k < |values|
          invariant 0 <= k <= |values|
          invariant result == Seed(key, values[..k])
        {
          result := result + [map[key := values[k]]];
          k := k + 1;
        }
        assert values[..k] == values;
      } else {
        result := Extend(result, key, values);
      }
      i := i + 1;
    }
    assert input[..i] == input;
  }

  /**
   * The second and later non-empty lists: each existing combination gets the
   * first value in place, and a copy per remaining value goes to `append`,
   * which is added at the end.
   */
  method Extend(result0: seq<Combination>, key: string, values: seq<Value>) returns (result: seq<Combination>)
    requires |values| > 0
    ensures result == SetAll(result0, key, values[0]) + Copies(result0, key, values[1..])
  {
    result := result0;
    var append: seq<Combination> := [];
    var rest := values[1..];
    var j := 0;
    while j < |result|
      invariant 0 <= j <= |result| == |result0|
      invariant forall t :: 0 <= t < j ==> result[t] == result0[t][key := values[0]]
      invariant forall t :: j <= t < |result| ==> result[t] == result0[t]
      invariant append == Copies(result0[..j], key, rest)
    {
      var product := result[j][key := values[0]];
      result := result[j := product];
      var variants := CopiesOf(product, key, rest);
      VariantsOfSet(result0[j], key, values[0], rest);
      assert result0[..j + 1][..j] == result0[..j];
      append := append + variants;
      j := j + 1;
    }
    assert result0[..j] == result0;
    assert result == SetAll(result0, key, values[0]);
    result := result + append;
  }

  /** The inner loop: a copy of `product` with `key` set to each remaining value. */
  method CopiesOf(product: Combination, key: string, rest: seq<Value>) returns (variants: seq<Combination>)
    ensures variants == Variants(product, key, rest)
  {
    var copy := product;
    variants := [];
    var k := 0;
    while k < |rest|
      invariant 0 <= k <= |rest|
      invariant variants == Variants(product, key, rest[..k])
      invariant k == 0 ==> copy == product
      invariant k > 0 ==> copy == product[key := rest[k - 1]]
    {
      assert copy[key := rest[k]] == product[key := rest[k]];
      copy := copy[key := rest[k]];
      variants := variants + [copy];
      assert rest[..k + 1][..k] == rest[..k];
      k := k + 1;
    }
    assert rest[..k] == rest;
  }

  /** Overwriting a key before taking the variants does not change them. */
  lemma {:induction false} VariantsOfSet(p: Combination, key: string, v: Value, rest: seq<Value>)
    ensures Variants(p[key := v], key, rest) == Variants(p, key, rest)
  {
    if |rest| > 0 {
      VariantsOfSet(p, key, v, rest[..|rest| - 1]);
      assert p[key := v][key := rest[|rest| - 1]] == p[key := rest[|rest| - 1]];
    }
  }

  // --- properties of the product

  /** Some key has a non-empty list. */
  predicate AnyNonEmpty(input: Lists) {
    exists i :: 0 <= i < |input| && |input[i].1| > 0
  }

  /** The product of the sizes of the non-empty lists. */
  function Product(input: Lists): (n: nat)
    ensures n >= 1
  {
    if |input| == 0 then 1
    else
      var size := |input[|input| - 1].1|;
      Product(input[..|input| - 1]) * (if size == 0 then 1 else size)
  }

  /** The keys whose list is not empty. */
  function UsedKeys(input: Lists): set<string> {
    set i | 0 <= i < |input| && |input[i].1| > 0 :: input[i].0
  }

  /** `c` picks, for every key with a non-empty list, one value of that list, and has no other key. */
  predicate IsCombination(c: Combination, input: Lists) {
    && c.Keys == UsedKeys(input)
    && forall i :: 0 <= i < |input| && |input[i].1| > 0 ==> c[input[i].0] in input[i].1
  }

  /** The keys of a dictionary are distinct. */
  predicate DistinctKeys(input: Lists) {
    forall i, j :: 0 <= i < j < |input| ==> input[i].0 != input[j].0
  }

  lemma {:induction false} VariantsSize(p: Combination, key: string, rest: seq<Value>)
    ensures |Variants(p, key, rest)| == |rest|
  {
    if |rest| > 0 {
      VariantsSize(p, key, rest[..|rest| - 1]);
    }
  }

  lemma MulSucc(a: nat, b: nat)
    ensures a * b + b == (a + 1) * b
  {
  }

  lemma {:induction false} CopiesSize(products: seq<Combination>, key: string, rest: seq<Value>)
    ensures |Copies(products, key, rest)| == |products| * |rest|
  {
    if |products| > 0 {
      CopiesSize(products[..|products| - 1], key, rest);
      VariantsSize(products[|products| - 1], key, rest);
      MulSucc(|products| - 1, |rest|);
    }
  }

  /** Without a non-empty list every factor of the product is 1. */
  lemma {:induction false} ProductOfEmptyLists(input: Lists)
    requires !AnyNonEmpty(input)
    ensures Product(input) == 1
  {
    if |input| > 0 {
      var prefix := input[..|input| - 1];
      assert !AnyNonEmpty(prefix) by {
        forall i | 0 <= i < |prefix|
          ensures |prefix[i].1| == 0
        {
          assert input[i] == prefix[i];
        }
      }
      ProductOfEmptyLists(prefix);
      assert |input[|input| - 1].1| == 0;
    }
  }

  /** A dictionary has a non-empty list exactly when its last entry or an earlier one has. */
  lemma AnyNonEmptySnoc(input: Lists)
    requires |input| > 0
    ensures AnyNonEmpty(input) <==> AnyNonEmpty(input[..|input| - 1]) || |input[|input| - 1].1| > 0
  {
    var prefix := input[..|input| - 1];
    if AnyNonEmpty(prefix) {
      var i :| 0 <= i < |prefix| && |prefix[i].1| > 0;
      assert input[i] == prefix[i];
    }
    if AnyNonEmpty(input) {
      var i :| 0 <= i < |input| && |input[i].1| > 0;
      if i < |prefix| {
        assert input[i] == prefix[i];
      }
    }
  }

  /**
   * The number of combinations is the product of the sizes of the non-empty
   * lists; with no non-empty list there are none.
   */
  lemma {:induction false} CartesianSize(input: Lists)
    ensures |CartesianOf(input)| == if AnyNonEmpty(input) then Product(input) else 0
  {
    if |input| > 0 {
      var prefix := input[..|input| - 1];
      var (key, values) := input[|input| - 1];
      CartesianSize(prefix);
      AnyNonEmptySnoc(input);
      var r := CartesianOf(prefix);
      if |values| > 0 {
        if |r| == 0 {
          ProductOfEmptyLists(prefix);
        } else {
          CopiesSize(r, key, values[1..]);
          assert |r| + |r| * (|values| - 1) == |r| * |values|;
        }
      }
    }
  }

  /** With no non-empty list the product is empty: `cartesian` returns `[]`. */
  lemma CartesianOfEmptyLists(input: Lists)
    requires forall i :: 0 <= i < |input| ==> |input[i].1| == 0
    ensures CartesianOf(input) == []
  {
    CartesianSize(input);
  }

  /** Every variant of `p` is `p` with `key` set to one of `rest`. */
  lemma {:induction false} VariantsOnly(p: Combination, key: string, rest: seq<Value>, c: Combination)
    requires c in Variants(p, key, rest)
    ensures exists v :: v in rest && c == p[key := v]
  {
    var init := rest[..|rest| - 1];
    if c in Variants(p, key, init) {
      VariantsOnly(p, key, init, c);
      var v :| v in init && c == p[key := v];
      var k :| 0 <= k < |init| && init[k] == v;
      assert rest[k] == v;
      assert v in rest && c == p[key := v];
    } else {
      var v := rest[|rest| - 1];
      assert c == p[key := v] && v in rest;
    }
  }

  /** Every value of `rest` gives a variant of `p`. */
  lemma {:induction false} VariantsAll(p: Combination, key: string, rest: seq<Value>, v: Value)
    requires v in rest
    ensures p[key := v] in Variants(p, key, rest)
  {
    var init := rest[..|rest| - 1];
    if v != rest[|rest| - 1] {
      var k :| 0 <= k < |rest| && rest[k] == v;
      assert init[k] == v;
      VariantsAll(p, key, init, v);
    }
  }

  /** Every copy is a combination of `products` with `key` set to one of `rest`. */
  lemma {:induction false} CopiesOnly(products: seq<Combination>, key: string, rest: seq<Value>, c: Combination)
    requires c in Copies(products, key, rest)
    ensures exists p, v :: p in products && v in rest && c == p[key := v]
  {
    var init := products[..|products| - 1];
    var last := products[|products| - 1];
    if c in Copies(init, key, rest) {
      CopiesOnly(init, key, rest, c);
      var p, v :| p in init && v in rest && c == p[key := v];
      var j :| 0 <= j < |init| && init[j] == p;
      assert products[j] == p;
      assert p in products && v in rest && c == p[key := v];
    } else {
      VariantsOnly(last, key, rest, c);
      var v :| v in rest && c == last[key := v];
      assert last in products;
    }
  }

  /** Every combination of `products` with `key` set to one of `rest` is a copy. */
  lemma {:induction false} CopiesAll(products: seq<Combination>, key: string, rest: seq<Value>, p: Combination, v: Value)
    requires p in products && v in rest
    ensures p[key := v] in Copies(products, key, rest)
  {
    var init := products[..|products| - 1];
    var last := products[|products| - 1];
    if p == last {
      VariantsAll(last, key, rest, v);
    } else {
      var j :| 0 <= j < |products| && products[j] == p;
      assert init[j] == p;
      CopiesAll(init, key, rest, p, v);
    }
  }

  /** Extending the product by a non-empty list sets `key` to each of its values in every combination. */
  lemma ExtendMembers(r: seq<Combination>, key: string, values: seq<Value>, c: Combination)
    requires |values| > 0 && |r| > 0
    ensures c in Step(r, key, values) <==> exists p, v :: p in r && v in values && c == p[key := v]
  {
    var first := SetAll(r, key, values[0]);
    assert Step(r, key, values) == first + Copies(r, key, values[1..]);
    if c in first {
      var j :| 0 <= j < |r| && first[j] == c;
      assert r[j] in r && values[0] in values && c == r[j][key := values[0]];
    } else if c in Copies(r, key, values[1..]) {
      CopiesOnly(r, key, values[1..], c);
      var p, v :| p in r && v in values[1..] && c == p[key := v];
      assert v in values;
    }
    if exists p, v :: p in r && v in values && c == p[key := v] {
      var p, v :| p in r && v in values && c == p[key := v];
      if v == values[0] {
        var j :| 0 <= j < |r| && r[j] == p;
        assert first[j] == c;
      } else {
        var k :| 0 <= k < |values| && values[k] == v;
        assert values[1..][k - 1] == v;
        CopiesAll(r, key, values[1..], p, v);
      }
    }
  }

  /** The used keys of a dictionary extended by one entry. */
  lemma UsedKeysSnoc(input: Lists)
    requires |input| > 0
    ensures UsedKeys(input) == UsedKeys(input[..|input| - 1])
              + (if |input[|input| - 1].1| > 0 then {input[|input| - 1].0} else {})
  {
    var prefix := input[..|input| - 1];
    forall k | k in UsedKeys(input)
      ensures k in UsedKeys(prefix) || (|input[|input| - 1].1| > 0 && k == input[|input| - 1].0)
    {
      var i :| 0 <= i < |input| && |input[i].1| > 0 && input[i].0 == k;
      if i < |prefix| {
        assert prefix[i] == input[i];
      }
    }
    forall k | k in UsedKeys(prefix)
      ensures k in UsedKeys(input)
    {
      var i :| 0 <= i < |prefix| && |prefix[i].1| > 0 && prefix[i].0 == k;
      assert input[i] == prefix[i];
    }
  }

  /** Without a non-empty list there are no used keys, and conversely. */
  lemma UsedKeysEmpty(input: Lists)
    ensures UsedKeys(input) == {} <==> !AnyNonEmpty(input)
  {
    if AnyNonEmpty(input) {
      var i :| 0 <= i < |input| && |input[i].1| > 0;
      assert input[i].0 in UsedKeys(input);
    }
  }

  /** In a dictionary the last key is not among the earlier ones. */
  lemma LastKeyFresh(input: Lists)
    requires |input| > 0 && DistinctKeys(input)
    ensures input[|input| - 1].0 !in UsedKeys(input[..|input| - 1])
  {
    var prefix := input[..|input| - 1];
    forall i | 0 <= i < |prefix|
      ensures prefix[i].0 != input[|input| - 1].0
    {
      assert prefix[i] == input[i];
    }
  }

  /** Combinations of a dictionary extended by `(key, values)`, with `values` not empty and `key` new. */
  lemma CombinationSnoc(input: Lists, c: Combination)
    requires |input| > 0 && DistinctKeys(input)
    requires |input[|input| - 1].1| > 0
    ensures var prefix := input[..|input| - 1];
            var (key, values) := input[|input| - 1];
            IsCombination(c, input) <==>
              key in c && c[key] in values && IsCombination(c - {key}, prefix)
  {
    var prefix := input[..|input| - 1];
    var (key, values) := input[|input| - 1];
    UsedKeysSnoc(input);
    LastKeyFresh(input);
    if IsCombination(c, input) {
      assert key in c && c[key] in values;
      forall i | 0 <= i < |prefix| && |prefix[i].1| > 0
        ensures (c - {key})[prefix[i].0] in prefix[i].1
      {
        assert input[i] == prefix[i];
        assert prefix[i].0 in UsedKeys(prefix);
      }
    }
    if key in c && c[key] in values && IsCombination(c - {key}, prefix) {
      assert c.Keys == (c - {key}).Keys + {key};
      forall i | 0 <= i < |input| && |input[i].1| > 0
        ensures c[input[i].0] in input[i].1
      {
        if i < |prefix| {
          assert input[i] == prefix[i];
          assert prefix[i].0 in UsedKeys(prefix);
        }
      }
    }
  }

  /** Soundness when the last list is empty: the product and the combinations are those of the prefix. */
  lemma SoundSkip(input: Lists, c: Combination)
    requires |input| > 0 && |input[|input| - 1].1| == 0
    requires AnyNonEmpty(input[..|input| - 1]) && IsCombination(c, input[..|input| - 1])
    ensures AnyNonEmpty(input) && IsCombination(c, input)
  {
    var prefix := input[..|input| - 1];
    AnyNonEmptySnoc(input);
    UsedKeysSnoc(input);
    forall i | 0 <= i < |input| && |input[i].1| > 0
      ensures c[input[i].0] in input[i].1
    {
      assert input[i] == prefix[i];
    }
  }

  /** Soundness when the last list seeds the product: its combinations have that one key. */
  lemma SoundSeed(input: Lists, c: Combination)
    requires |input| > 0 && |input[|input| - 1].1| > 0
    requires !AnyNonEmpty(input[..|input| - 1])
    requires c in Seed(input[|input| - 1].0, input[|input| - 1].1)
    ensures AnyNonEmpty(input) && IsCombination(c, input)
  {
    var prefix := input[..|input| - 1];
    var (key, values) := input[|input| - 1];
    var k :| 0 <= k < |values| && Seed(key, values)[k] == c;
    AnyNonEmptySnoc(input);
    UsedKeysSnoc(input);
    UsedKeysEmpty(prefix);
    assert UsedKeys(input) == {key};
    forall i | 0 <= i < |input| && |input[i].1| > 0
      ensures c[input[i].0] in input[i].1
    {
      assert input[i].0 in UsedKeys(input);
    }
  }

  /** Soundness when the last list extends a combination `p` of the prefix. */
  lemma SoundExtend(input: Lists, p: Combination, v: Value)
    requires |input| > 0 && DistinctKeys(input)
    requires v in input[|input| - 1].1
    requires IsCombination(p, input[..|input| - 1])
    ensures AnyNonEmpty(input) && IsCombination(p[input[|input| - 1].0 := v], input)
  {
    var key := input[|input| - 1].0;
    var c := p[key := v];
    AnyNonEmptySnoc(input);
    LastKeyFresh(input);
    assert c - {key} == p;
    CombinationSnoc(input, c);
  }

  /** Everything in the product is a combination of the input. */
  lemma {:induction false} CartesianSound(input: Lists, c: Combination)
    requires DistinctKeys(input)
    requires c in CartesianOf(input)
    ensures AnyNonEmpty(input) && IsCombination(c, input)
  {
    var prefix := input[..|input| - 1];
    var (key, values) := input[|input| - 1];
    assert DistinctKeys(prefix);
    var r := CartesianOf(prefix);
    if |values| == 0 {
      CartesianSound(prefix, c);
      SoundSkip(input, c);
    } else if |r| == 0 {
      CartesianSize(prefix);
      SoundSeed(input, c);
    } else {
      ExtendMembers(r, key, values, c);
      var p, v :| p in r && v in values && c == p[key := v];
      CartesianSound(prefix, p);
      SoundExtend(input, p, v);
    }
  }

  /** Completeness when the last list is empty: the combinations are those of the prefix. */
  lemma CompleteSkip(input: Lists, c: Combination)
    requires |input| > 0 && |input[|input| - 1].1| == 0
    requires AnyNonEmpty(input) && IsCombination(c, input)
    ensures AnyNonEmpty(input[..|input| - 1]) && IsCombination(c, input[..|input| - 1])
  {
    var prefix := input[..|input| - 1];
    AnyNonEmptySnoc(input);
    UsedKeysSnoc(input);
    forall i | 0 <= i < |prefix| && |prefix[i].1| > 0
      ensures c[prefix[i].0] in prefix[i].1
    {
      assert input[i] == prefix[i];
    }
  }

  /** Completeness when the last list seeds the product: a combination has just that key. */
  lemma CompleteSeed(input: Lists, c: Combination)
    requires |input| > 0 && |input[|input| - 1].1| > 0
    requires !AnyNonEmpty(input[..|input| - 1]) && IsCombination(c, input)
    ensures c in Seed(input[|input| - 1].0, input[|input| - 1].1)
  {
    var prefix := input[..|input| - 1];
    var (key, values) := input[|input| - 1];
    UsedKeysSnoc(input);
    UsedKeysEmpty(prefix);
    assert c.Keys == {key};
    assert c[key] in values by {
      assert input[|input| - 1].0 == key;
    }
    assert c == map[key := c[key]];
    var k :| 0 <= k < |values| && values[k] == c[key];
    assert Seed(key, values)[k] == c;
  }

  /** Every combination of the input is in the product, once some list is not empty. */
  lemma {:induction false} CartesianComplete(input: Lists, c: Combination)
    requires DistinctKeys(input)
    requires AnyNonEmpty(input) && IsCombination(c, input)
    ensures c in CartesianOf(input)
  {
    var prefix := input[..|input| - 1];
    var (key, values) := input[|input| - 1];
    assert DistinctKeys(prefix);
    var r := CartesianOf(prefix);
    CartesianSize(prefix);
    if |values| == 0 {
      CompleteSkip(input, c);
      CartesianComplete(prefix, c);
    } else if |r| == 0 {
      CompleteSeed(input, c);
    } else {
      CombinationSnoc(input, c);
      var p := c - {key};
      CartesianComplete(prefix, p);
      assert c == p[key := c[key]];
      ExtendMembers(r, key, values, c);
    }
  }

  /**
   * A map is in the product exactly when it is a combination of the input
   * (one value per non-empty list, no other key), provided some list is not
   * empty: every choice appears, and nothing else does.
   */
  lemma CartesianMembers(input: Lists, c: Combination)
    requires DistinctKeys(input)
    ensures c in CartesianOf(input) <==> AnyNonEmpty(input) && IsCombination(c, input)
  {
    if c in CartesianOf(input) {
      CartesianSound(input, c);
    }
    if AnyNonEmpty(input) && IsCombination(c, input) {
      CartesianComplete(input, c);
    }
  }

  /** The example of the documentation: two keys of two values each give four combinations. */
  lemma CartesianExample()
    ensures |CartesianOf([("arm", [Str("A"), Str("B")]), ("gender", [Str("Female"), Str("Male")])])| == 4
  {
    var input := [("arm", [Str("A"), Str("B")]), ("gender", [Str("Female"), Str("Male")])];
    CartesianSize(input);
    assert |input[0].1| > 0;
    assert input[..1][..0] == [];
    assert Product(input[..1]) == 2;
  }
}
