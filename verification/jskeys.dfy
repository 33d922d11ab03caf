/**
 * What a plain JavaScript object does with string keys, as far as the
 * aggregator and the remediation table depend on it: the order in which
 * Object.entries lists own keys, and the names every object literal
 * inherits from Object.prototype.
 */
module JsKeys {
  import opened Seqs

  predicate IsDigit(c: char) {
    '0' <= c <= '9'
  }

  predicate AllDigits(s: string) {
    forall i :: 0 <= i < |s| ==> IsDigit(s[i])
  }

  /** The number a string of decimal digits denotes. */
  function DigitsValue(s: string): nat
    requires AllDigits(s)
    decreases |s|
  {
    if s == [] then 0
    else 10 * DigitsValue(s[..|s| - 1]) + (s[|s| - 1] as int - '0' as int)
  }

  /** The largest array index, 2^32 - 2. */
  const MaxArrayIndex: nat := 0xFFFF_FFFE

  /**
   * An array index: the canonical decimal numeral (no sign, no leading zero
   * except for "0" itself) of an integer from 0 to 2^32 - 2.
   */
  predicate IsArrayIndex(key: string) {
    && |key| > 0
    && AllDigits(key)
    && (key[0] != '0' || |key| == 1)
    && DigitsValue(key) <= MaxArrayIndex
  }

  predicate IsNamedKey(key: string) {
    !IsArrayIndex(key)
  }

  /** The numeric value of an array-index key; -1 for any other key. */
  function IndexValue(key: string): int {
    if IsArrayIndex(key) then DigitsValue(key) else -1
  }

  predicate IndexNotAfter(a: string, b: string) {
    IndexValue(a) <= IndexValue(b)
  }

  /** Places an array-index key into an ascending list of array-index keys. */
  function InsertByIndex(sorted: seq<string>, key: string): (r: seq<string>)
    ensures |r| == |sorted| + 1
    ensures forall k :: k in r <==> k in sorted || k == key
    ensures Ordered(sorted, IndexNotAfter) ==> Ordered(r, IndexNotAfter)
    ensures Distinct(sorted) && key !in sorted ==> Distinct(r)
    decreases |sorted|
  {
    if sorted == [] || IndexValue(key) <= IndexValue(sorted[0]) then
      InsertFrontFacts(sorted, key);
      [key] + sorted
    else
      var tail := InsertByIndex(sorted[1..], key);
      InsertLaterFacts(sorted, key, tail);
      [sorted[0]] + tail
  }

  lemma InsertFrontFacts(sorted: seq<string>, key: string)
    requires sorted == [] || IndexValue(key) <= IndexValue(sorted[0])
    ensures Ordered(sorted, IndexNotAfter) ==> Ordered([key] + sorted, IndexNotAfter)
    ensures Distinct(sorted) && key !in sorted ==> Distinct([key] + sorted)
  {
    if Ordered(sorted, IndexNotAfter) {
      forall i | 0 <= i < |sorted| ensures IndexNotAfter(key, sorted[i]) {
        if i > 0 {
          assert IndexNotAfter(sorted[0], sorted[i]);
        }
      }
      PrependOrdered(key, sorted, IndexNotAfter);
    }
    if Distinct(sorted) && key !in sorted {
      PrependDistinct(key, sorted);
    }
  }

  lemma InsertLaterFacts(sorted: seq<string>, key: string, tail: seq<string>)
    requires sorted != [] && IndexValue(sorted[0]) < IndexValue(key)
    requires forall k :: k in tail <==> k in sorted[1..] || k == key
    requires Ordered(sorted[1..], IndexNotAfter) ==> Ordered(tail, IndexNotAfter)
    requires Distinct(sorted[1..]) && key !in sorted[1..] ==> Distinct(tail)
    ensures Ordered(sorted, IndexNotAfter) ==> Ordered([sorted[0]] + tail, IndexNotAfter)
    ensures Distinct(sorted) && key !in sorted ==> Distinct([sorted[0]] + tail)
  {
    if Ordered(sorted, IndexNotAfter) {
      TailOrdered(sorted, IndexNotAfter);
      forall i | 0 <= i < |tail| ensures IndexNotAfter(sorted[0], tail[i]) {
        assert tail[i] in tail;
        if tail[i] != key {
          var m :| 0 <= m < |sorted[1..]| && sorted[1..][m] == tail[i];
        }
      }
      PrependOrdered(sorted[0], tail, IndexNotAfter);
    }
    if Distinct(sorted) && key !in sorted {
      TailDistinct(sorted);
      assert sorted[0] !in tail;
      PrependDistinct(sorted[0], tail);
    }
  }

  /** The keys in ascending numeric order (insertion sort). */
  function SortByIndex(keys: seq<string>): (r: seq<string>)
    ensures |r| == |keys|
    ensures forall k :: k in r <==> k in keys
    ensures Ordered(r, IndexNotAfter)
    ensures Distinct(keys) ==> Distinct(r)
    decreases |keys|
  {
    if keys == [] then []
    else
      var init := keys[..|keys| - 1];
      var last := keys[|keys| - 1];
      assert keys == init + [last];
      assert Distinct(keys) ==> Distinct(init) && last !in init by {
        if Distinct(keys) {
          assert forall i, j :: 0 <= i < j < |init| ==> init[i] == keys[i] && init[j] == keys[j];
          forall m | 0 <= m < |init| ensures init[m] != last {
            assert init[m] == keys[m];
          }
        }
      }
      InsertByIndex(SortByIndex(init), last)
  }

  /**
   * The order in which Object.entries lists the own keys of an ordinary
   * object whose keys were created in the order `created`: array-index keys
   * first, in ascending numeric order, then every other key in creation
   * order (section 10.1.11.1, OrdinaryOwnPropertyKeys, of ECMA-262).
   */
  function OwnKeysOrder(created: seq<string>): (r: seq<string>)
    ensures forall k :: k in r <==> k in created
    ensures Distinct(created) ==> Distinct(r)
    ensures forall i, j :: 0 <= i < j < |r| && IsArrayIndex(r[j]) ==>
      IsArrayIndex(r[i]) && IndexValue(r[i]) <= IndexValue(r[j])
    ensures Filter(IsNamedKey, r) == Filter(IsNamedKey, created)
  {
    var indices := SortByIndex(Filter(IsArrayIndex, created));
    var named := Filter(IsNamedKey, created);
    var r := indices + named;
    assert Distinct(created) ==> Distinct(r) by {
      if Distinct(created) {
        FilterDistinct(IsArrayIndex, created);
        FilterDistinct(IsNamedKey, created);
        forall i, j | 0 <= i < j < |r| ensures r[i] != r[j] {
          if j < |indices| {
          } else if i >= |indices| {
            assert r[i] == named[i - |indices|] && r[j] == named[j - |indices|];
          } else {
            assert r[i] in indices && r[j] == named[j - |indices|] && r[j] in named;
          }
        }
      }
    }
    forall i, j | 0 <= i < j < |r| && IsArrayIndex(r[j])
      ensures IsArrayIndex(r[i]) && IndexValue(r[i]) <= IndexValue(r[j])
    {
      assert r[j] !in named;
      assert r[i] in indices && r[j] in indices;
      assert IndexNotAfter(indices[i], indices[j]);
    }
    assert Filter(IsNamedKey, r) == named by {
      FilterAppend(IsNamedKey, indices, named);
      FilterKeepsNone(IsNamedKey, indices);
      FilterKeepsAll(IsNamedKey, named);
      assert [] + named == named;
    }
    r
  }

  /** When no key is an array index, Object.entries follows creation order exactly. */
  lemma NamedKeysKeepCreationOrder(created: seq<string>)
    requires forall k :: k in created ==> IsNamedKey(k)
    ensures OwnKeysOrder(created) == created
  {
    FilterKeepsAll(IsNamedKey, created);
    FilterKeepsNone(IsArrayIndex, created);
  }

  /**
   * The properties every object literal inherits from Object.prototype, as
   * in current engines: the accessor __proto__ and eleven methods.
   */
  const ObjectPrototypeNames: set<string> := {
    "__proto__", "constructor", "hasOwnProperty", "isPrototypeOf",
    "propertyIsEnumerable", "toString", "toLocaleString", "valueOf",
    "__defineGetter__", "__defineSetter__", "__lookupGetter__", "__lookupSetter__"
  }

  /** The `length` (declared parameter count) of each inherited method. */
  const InheritedMethodLength: map<string, nat> := map[
    "constructor" := 1, "hasOwnProperty" := 1, "isPrototypeOf" := 1,
    "propertyIsEnumerable" := 1, "toString" := 0, "toLocaleString" := 0,
    "valueOf" := 0, "__defineGetter__" := 2, "__defineSetter__" := 2,
    "__lookupGetter__" := 1, "__lookupSetter__" := 1
  ]

  /** No inherited name is an array index, so inheritance and key order never interact. */
  lemma InheritedNamesAreNamedKeys()
    ensures forall k :: k in ObjectPrototypeNames ==> IsNamedKey(k)
    ensures InheritedMethodLength.Keys + {"__proto__"} == ObjectPrototypeNames
  {
    forall k | k in ObjectPrototypeNames ensures IsNamedKey(k) {
      assert !IsDigit(k[0]);
    }
  }
}
