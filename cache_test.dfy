/**
 * `cache-test.js`: the helper the HTTP cache layout tests share. A test
 * matrix is a list of dimensions, each a list of components; every test
 * picks one component per dimension and merges their header fields, and
 * the tests enumerate all combinations in mixed-radix order, the first
 * dimension varying fastest. Header values may be placeholders that
 * `makeHeaderValue` expands.
 *
 * JavaScript objects are values here: a header object is a map from
 * header name to value, a test is a map from field name (such as
 * `responseHeaders`) to a header object. Property enumeration order does
 * not show in any result, since every key is visited once. The clock and
 * `Date.prototype.toUTCString` are parameters.
 */
module CacheTestMatrix {
  import IntMath
  import opened DecimalText

  type HeaderFields = map<string, string>

  /** A test, and a component of a dimension: field name to headers. */
  type TestObject = map<string, HeaderFields>

  /** `field[name]` is truthy: present and not the empty string. */
  predicate Truthy(field: HeaderFields, name: string)
  {
    name in field && field[name] != ""
  }

  /** What `mergeFields(field, componentField)` leaves in `field`: every
      component value is appended after ", " to a value already there, or
      stored when there is none (or only the empty string). */
  function Merged(field: HeaderFields, componentField: HeaderFields): (merged: HeaderFields)
  {
    map name | name in field.Keys + componentField.Keys ::
      if name !in componentField then field[name]
      else if Truthy(field, name) then field[name] + ", " + componentField[name]
      else componentField[name]
  }

  /** The component's values restricted to the names not in `pending`. */
  function Without(componentField: HeaderFields, pending: set<string>): HeaderFields
  {
    map name | name in componentField.Keys - pending :: componentField[name]
  }

  /** One name of `mergeFields`: the value appended after ", " to a truthy
      value of that name, or stored. */
  function MergeOne(field: HeaderFields, name: string, value: string): HeaderFields
  {
    field[name := if Truthy(field, name) then field[name] + ", " + value else value]
  }

  /** Merging one more of the component's names into a partial merge. */
  lemma MergeStep(field: HeaderFields, componentField: HeaderFields, pending: set<string>, name: string)
    requires pending <= componentField.Keys && name in pending
    ensures Merged(field, Without(componentField, pending - {name})) ==
      MergeOne(Merged(field, Without(componentField, pending)), name, componentField[name])
  {
    var before := Merged(field, Without(componentField, pending));
    var after := Merged(field, Without(componentField, pending - {name}));
    assert name !in Without(componentField, pending);
    assert before.Keys + {name} == after.Keys;
    forall k | k in after.Keys
      ensures after[k] == MergeOne(before, name, componentField[name])[k]
    {
      if k != name {
        assert k in Without(componentField, pending - {name}) <==> k in Without(componentField, pending);
      }
    }
  }

  /** `mergeFields`: visits the component's names one by one. */
  method MergeFields(field: HeaderFields, componentField: HeaderFields) returns (merged: HeaderFields)
    ensures merged == Merged(field, componentField)
  {
    merged := field;
    var pending := componentField.Keys;
    assert Without(componentField, pending) == map[];
    while pending != {}
      invariant pending <= componentField.Keys
      invariant merged == Merged(field, Without(componentField, pending))
      decreases |pending|
    {
      var name :| name in pending;
      MergeStep(field, componentField, pending, name);
      if name in merged && merged[name] != "" {
        merged := merged[name := merged[name] + ", " + componentField[name]];
      } else {
        merged := merged[name := componentField[name]];
      }
      pending := pending - {name};
    }
    assert Without(componentField, {}) == componentField;
  }

  /** A present, non-empty value gets the component's value appended; any
      other name in the component gets the component's value; names only in
      the field keep theirs. */
  lemma MergedMeaning(field: HeaderFields, componentField: HeaderFields, name: string)
    ensures name in Merged(field, componentField) <==> name in field || name in componentField
    ensures name in componentField && Truthy(field, name) ==>
      Merged(field, componentField)[name] == field[name] + ", " + componentField[name]
    ensures name in componentField && !Truthy(field, name) ==> Merged(field, componentField)[name] == componentField[name]
    ensures name in field && name !in componentField ==> Merged(field, componentField)[name] == field[name]
  {
  }

  /** Merging into a fresh empty object copies the component, and merging an empty
      component changes nothing. */
  lemma MergedUnits(field: HeaderFields)
    ensures Merged(map[], field) == field
    ensures Merged(field, map[]) == field
  {
  }

  /** The loop body of `generateTests` for one component: each of its
      fields is merged into the test's object of that name, created empty
      when the test has none. */
  function AddComponent(test: TestObject, component: TestObject): TestObject
  {
    map f | f in test.Keys + component.Keys ::
      if f !in component then test[f]
      else Merged(if f in test then test[f] else map[], component[f])
  }

  /** One field of a component merged into the test. */
  function AddOne(test: TestObject, f: string, fields: HeaderFields): TestObject
  {
    test[f := Merged(if f in test then test[f] else map[], fields)]
  }

  /** The component's fields restricted to those not in `pending`. */
  function ComponentWithout(component: TestObject, pending: set<string>): TestObject
  {
    map f | f in component.Keys - pending :: component[f]
  }

  lemma AddStep(test: TestObject, component: TestObject, pending: set<string>, f: string)
    requires pending <= component.Keys && f in pending
    ensures AddComponent(test, ComponentWithout(component, pending - {f})) ==
      AddOne(AddComponent(test, ComponentWithout(component, pending)), f, component[f])
  {
    var before := AddComponent(test, ComponentWithout(component, pending));
    var after := AddComponent(test, ComponentWithout(component, pending - {f}));
    AddStepKeys(test, component, pending, f);
    AddStepHere(test, component, pending, f);
    var goal := AddOne(before, f, component[f]);
    assert goal.Keys == after.Keys;
    forall k | k in after.Keys
      ensures after[k] == goal[k]
    {
      AddStepAt(test, component, pending, f, k);
    }
    MapsAgree(after, goal);
  }

  lemma AddStepAt(test: TestObject, component: TestObject, pending: set<string>, f: string, k: string)
    requires pending <= component.Keys && f in pending
    requires k in AddComponent(test, ComponentWithout(component, pending - {f}))
    ensures k in AddOne(AddComponent(test, ComponentWithout(component, pending)), f, component[f])
    ensures AddComponent(test, ComponentWithout(component, pending - {f}))[k] ==
      AddOne(AddComponent(test, ComponentWithout(component, pending)), f, component[f])[k]
  {
    AddStepKeys(test, component, pending, f);
    if k == f {
      AddStepHere(test, component, pending, f);
    } else {
      AddStepElsewhere(test, component, pending, f, k);
    }
  }

  /** Maps with the same keys and the same value at each key are equal. */
  lemma MapsAgree<K, V>(a: map<K, V>, b: map<K, V>)
    requires a.Keys == b.Keys
    requires forall k | k in a :: a[k] == b[k]
    ensures a == b
  {
  }

  lemma AddStepKeys(test: TestObject, component: TestObject, pending: set<string>, f: string)
    requires pending <= component.Keys && f in pending
    ensures AddComponent(test, ComponentWithout(component, pending)).Keys + {f} ==
      AddComponent(test, ComponentWithout(component, pending - {f})).Keys
  {
    assert ComponentWithout(component, pending).Keys + {f} == ComponentWithout(component, pending - {f}).Keys;
  }

  /** The field being added is merged into what the test held. */
  lemma AddStepHere(test: TestObject, component: TestObject, pending: set<string>, f: string)
    requires pending <= component.Keys && f in pending
    ensures f in AddComponent(test, ComponentWithout(component, pending - {f}))
    ensures AddComponent(test, ComponentWithout(component, pending - {f}))[f] ==
      Merged(if f in test then test[f] else map[], component[f])
    ensures f in test <==> f in AddComponent(test, ComponentWithout(component, pending))
    ensures f in test ==> AddComponent(test, ComponentWithout(component, pending))[f] == test[f]
  {
    assert f !in ComponentWithout(component, pending);
    assert f in ComponentWithout(component, pending - {f});
  }

  /** A field other than the one being added is the same in both partial
      results. */
  lemma AddStepElsewhere(test: TestObject, component: TestObject, pending: set<string>, f: string, k: string)
    requires pending <= component.Keys && f in pending && k != f
    requires k in AddComponent(test, ComponentWithout(component, pending))
    ensures k in AddComponent(test, ComponentWithout(component, pending - {f}))
    ensures AddComponent(test, ComponentWithout(component, pending - {f}))[k] ==
      AddComponent(test, ComponentWithout(component, pending))[k]
  {
    assert k in ComponentWithout(component, pending - {f}) <==> k in ComponentWithout(component, pending);
  }

  /** `for (var field in component)` of `generateTests`: merges every
      field of the component into the test. */
  method AddComponentFields(test: TestObject, component: TestObject) returns (newTest: TestObject)
    ensures newTest == AddComponent(test, component)
  {
    newTest := test;
    var pending := component.Keys;
    assert AddComponent(test, ComponentWithout(component, pending)) == test;
    while pending != {}
      invariant pending <= component.Keys
      invariant newTest == AddComponent(test, ComponentWithout(component, pending))
      decreases |pending|
    {
      var field :| field in pending;
      AddStep(test, component, pending, field);
      var current: HeaderFields := map[];
      if field in newTest {
        current := newTest[field];
      }
      var merged := MergeFields(current, component[field]);
      newTest := newTest[field := merged];
      pending := pending - {field};
    }
    assert ComponentWithout(component, {}) == component;
  }

  /** Every dimension of the matrix has at least one component. */
  predicate NoEmptyDimension(matrix: seq<seq<TestObject>>)
  {
    forall d | d in matrix :: |d| > 0
  }

  /** The product of the dimension sizes. */
  function Count(matrix: seq<seq<TestObject>>): nat
  {
    if |matrix| == 0 then 1 else |matrix[0]| * Count(matrix[1..])
  }

  /** The mixed-radix digits of `index`: the component picked in each
      dimension, the first dimension the least significant. */
  function Digits(matrix: seq<seq<TestObject>>, index: nat): (c: seq<nat>)
    requires NoEmptyDimension(matrix)
    ensures |c| == |matrix|
  {
    if |matrix| == 0 then [] else [index % |matrix[0]|] + Digits(matrix[1..], index / |matrix[0]|)
  }

  /** A choice of one component per dimension. */
  predicate IsChoice(matrix: seq<seq<TestObject>>, c: seq<nat>)
  {
    |c| == |matrix| && (|matrix| == 0 || (c[0] < |matrix[0]| && IsChoice(matrix[1..], c[1..])))
  }

  /** The number a choice is the digits of. */
  function Encode(matrix: seq<seq<TestObject>>, c: seq<nat>): nat
    requires IsChoice(matrix, c)
  {
    if |matrix| == 0 then 0 else c[0] + |matrix[0]| * Encode(matrix[1..], c[1..])
  }

  /** The test a choice of components makes: the components merged in
      dimension order into `test`. */
  function Combine(test: TestObject, matrix: seq<seq<TestObject>>, c: seq<nat>): TestObject
    requires IsChoice(matrix, c)
    decreases |matrix|
  {
    if |matrix| == 0 then test else Combine(AddComponent(test, matrix[0][c[0]]), matrix[1..], c[1..])
  }

  /** What the inner loop of `generateTests` builds from `test` when the
      remaining dimensions are `matrix` and the remaining number `index`. */
  function Build(test: TestObject, matrix: seq<seq<TestObject>>, index: nat): TestObject
    requires NoEmptyDimension(matrix)
    decreases |matrix|
  {
    if |matrix| == 0 then test
    else Build(AddComponent(test, matrix[0][index % |matrix[0]|]), matrix[1..], index / |matrix[0]|)
  }

  /** The test `generateTests` builds for `testNumber`. */
  function TestFor(matrix: seq<seq<TestObject>>, testNumber: nat): TestObject
    requires NoEmptyDimension(matrix)
  {
    Build(map[], matrix, testNumber)
  }

  /** A test combines the components the digits of its number pick. */
  lemma {:induction false} BuildCombinesDigits(test: TestObject, matrix: seq<seq<TestObject>>, index: nat)
    requires NoEmptyDimension(matrix)
    ensures IsChoice(matrix, Digits(matrix, index))
    ensures Build(test, matrix, index) == Combine(test, matrix, Digits(matrix, index))
    decreases |matrix|
  {
    if |matrix| > 0 {
      var n := |matrix[0]|;
      BuildCombinesDigits(AddComponent(test, matrix[0][index % n]), matrix[1..], index / n);
      assert Digits(matrix, index)[1..] == Digits(matrix[1..], index / n);
    }
  }

  lemma {:induction false} CountPositive(matrix: seq<seq<TestObject>>)
    ensures Count(matrix) > 0 <==> NoEmptyDimension(matrix)
  {
    if |matrix| > 0 {
      CountPositive(matrix[1..]);
      assert matrix == [matrix[0]] + matrix[1..];
      if Count(matrix[1..]) > 0 && |matrix[0]| > 0 {
        MulPositive(|matrix[0]|, Count(matrix[1..]));
      }
    }
  }

  lemma {:induction false} CountAppend(matrix: seq<seq<TestObject>>, i: nat)
    requires i < |matrix|
    ensures Count(matrix[..i + 1]) == Count(matrix[..i]) * |matrix[i]|
  {
    if i > 0 {
      var longer, shorter := matrix[..i + 1], matrix[..i];
      assert longer[0] == shorter[0] == matrix[0];
      assert longer[1..] == matrix[1..][..i];
      assert shorter[1..] == matrix[1..][..i - 1];
      CountAppend(matrix[1..], i - 1);
      MulAssociates(|matrix[0]|, Count(shorter[1..]), |matrix[i]|);
    }
  }

  lemma MulAssociates(a: nat, b: nat, c: nat)
    ensures a * (b * c) == (a * b) * c
  {
  }

  lemma MulPositive(a: int, b: int)
    requires a > 0 && b > 0
    ensures a * b > 0
  {
  }

  /** The digits of a number below the count are a choice, and encode it. */
  lemma {:induction false} DigitsEncode(matrix: seq<seq<TestObject>>, index: nat)
    requires index < Count(matrix)
    requires NoEmptyDimension(matrix)
    ensures IsChoice(matrix, Digits(matrix, index))
    ensures Encode(matrix, Digits(matrix, index)) == index
  {
    if |matrix| > 0 {
      var n := |matrix[0]|;
      var rest := matrix[1..];
      IntMath.DivModSplit(index, n);
      QuotientBelow(index, n, Count(rest));
      DigitsEncode(rest, index / n);
      assert Digits(matrix, index)[1..] == Digits(rest, index / n);
    }
  }

  /** x < n * k gives x / n < k. */
  lemma QuotientBelow(x: nat, n: nat, k: nat)
    requires n > 0 && x < n * k
    ensures x / n < k
  {
    IntMath.DivModSplit(x, n);
  }

  /** A choice encodes a number below the count, whose digits it is. */
  lemma {:induction false} EncodeDigits(matrix: seq<seq<TestObject>>, c: seq<nat>)
    requires IsChoice(matrix, c)
    ensures NoEmptyDimension(matrix)
    ensures Encode(matrix, c) < Count(matrix)
    ensures Digits(matrix, Encode(matrix, c)) == c
  {
    if |matrix| > 0 {
      var n := |matrix[0]|;
      var rest := matrix[1..];
      EncodeDigits(rest, c[1..]);
      assert matrix == [matrix[0]] + rest;
      var e := Encode(rest, c[1..]);
      IntMath.QuotRem(c[0] + n * e, n, e, c[0]);
      EncodeBelow(c[0], n, e, Count(rest));
      assert c == [c[0]] + c[1..];
    }
  }

  /** A digit below n plus n times a number below k is below n * k. */
  lemma EncodeBelow(d: nat, n: nat, e: nat, k: nat)
    requires d < n && e < k
    ensures d + n * e < n * k
  {
    assert n * (e + 1) <= n * k;
  }

  /** Every choice of one component per dimension is made by exactly one
      test number below the count. */
  lemma EveryCombinationOnce(matrix: seq<seq<TestObject>>, c: seq<nat>)
    requires IsChoice(matrix, c)
    ensures NoEmptyDimension(matrix)
    ensures Encode(matrix, c) < Count(matrix) && Digits(matrix, Encode(matrix, c)) == c
    ensures forall t: nat :: t < Count(matrix) && Digits(matrix, t) == c ==> t == Encode(matrix, c)
  {
    EncodeDigits(matrix, c);
    forall t: nat | t < Count(matrix) && Digits(matrix, t) == c
      ensures t == Encode(matrix, c)
    {
      DigitsEncode(matrix, t);
    }
  }

  /** The test number's digit in dimension i is the number divided by the
      sizes of the dimensions before i, modulo the size of dimension i. */
  lemma {:induction false} DigitFormula(matrix: seq<seq<TestObject>>, index: nat, i: nat)
    requires NoEmptyDimension(matrix) && i < |matrix|
    ensures Count(matrix[..i]) > 0
    ensures Digits(matrix, index)[i] == (index / Count(matrix[..i])) % |matrix[i]|
  {
    var rest := matrix[1..];
    CountPositive(matrix[..i]);
    if i > 0 {
      var n := |matrix[0]|;
      DigitFormula(rest, index / n, i - 1);
      assert Digits(matrix, index)[i] == Digits(rest, index / n)[i - 1];
      assert matrix[..i][1..] == rest[..i - 1];
      var p := Count(rest[..i - 1]);
      assert Count(matrix[..i]) == n * p;
      NestedDivision(index, n, p);
    }
  }

  /** Dividing by n and then by p is dividing by n * p. */
  lemma NestedDivision(x: nat, n: nat, p: nat)
    requires n > 0 && p > 0
    ensures (x / n) / p == x / (n * p)
  {
    var q1, r1 := x / n, x % n;
    var q2, r2 := q1 / p, q1 % p;
    IntMath.DivModSplit(x, n);
    IntMath.DivModSplit(q1, p);
    assert x == (n * p) * q2 + (n * r2 + r1) by {
      assert x == n * (p * q2 + r2) + r1;
    }
    EncodeBelow(r1, n, r2, p);
    MulPositive(n, p);
    IntMath.QuotRem(x, n * p, q2, n * r2 + r1);
  }

  /** `generateTests(testMatrix)`: one test per number below the product
      of the dimension sizes, test t combining the components its digits
      pick. */
  method GenerateTests(testMatrix: seq<seq<TestObject>>) returns (tests: seq<TestObject>)
    ensures |tests| == Count(testMatrix)
    ensures |tests| > 0 ==> NoEmptyDimension(testMatrix)
    ensures forall t :: 0 <= t < |tests| ==> NoEmptyDimension(testMatrix) && tests[t] == TestFor(testMatrix, t)
  {
    var testCount := 1;
    for i := 0 to |testMatrix|
      invariant testCount == Count(testMatrix[..i])
    {
      CountAppend(testMatrix, i);
      testCount := testCount * |testMatrix[i]|;
    }
    assert testMatrix[..|testMatrix|] == testMatrix;
    CountPositive(testMatrix);
    tests := [];
    for testNumber := 0 to testCount
      invariant |tests| == testNumber
      invariant forall t :: 0 <= t < testNumber ==> NoEmptyDimension(testMatrix) && tests[t] == TestFor(testMatrix, t)
    {
      var test := BuildTest(testMatrix, testNumber);
      tests := tests + [test];
    }
  }

  /** The loop over the dimensions of `generateTests` for one test number:
      picks each dimension's component by the remaining number modulo the
      dimension's size and divides the number by that size. */
  method BuildTest(testMatrix: seq<seq<TestObject>>, testNumber: nat) returns (test: TestObject)
    requires NoEmptyDimension(testMatrix)
    ensures test == TestFor(testMatrix, testNumber)
  {
    test := map[];
    var index: nat := testNumber;
    for i := 0 to |testMatrix|
      invariant Build(test, testMatrix[i..], index) == TestFor(testMatrix, testNumber)
    {
      var components := testMatrix[i];
      assert components in testMatrix;
      var component := components[index % |components|];
      assert testMatrix[i..][1..] == testMatrix[i + 1..];
      index := index / |components|;
      test := AddComponentFields(test, component);
    }
  }

  /** Placeholders `makeHeaderValue` expands. */
  const NowPlaceholder := "now(0)"
  const NowPlus100Placeholder := "now(100)"
  const UniquePlaceholder := "unique()"

  /** The page state `makeHeaderValue` uses: the counter for `unique()`
      and the server's clock offset measured at load. */
  class CacheTest {
    var uniqueIdCounter: nat
    const serverClientTimeDelta: int

    constructor (serverClientTimeDelta: int)
      ensures uniqueIdCounter == 0 && this.serverClientTimeDelta == serverClientTimeDelta
    {
      uniqueIdCounter := 0;
      this.serverClientTimeDelta := serverClientTimeDelta;
    }

    /** `makeHeaderValue`: `now(0)` and `now(100)` become the server time
        (plus 100 seconds) as a UTC date string; `unique()` becomes the
        counter's value and advances the counter; anything else is returned
        unchanged. */
    method MakeHeaderValue(value: string, nowMillis: int, toUTCString: int -> string) returns (r: string)
      modifies this`uniqueIdCounter
      ensures value == NowPlaceholder ==> r == toUTCString(nowMillis + serverClientTimeDelta)
      ensures value == NowPlus100Placeholder ==> r == toUTCString(nowMillis + serverClientTimeDelta + 100 * 1000)
      ensures value == UniquePlaceholder ==> r == DecimalString(old(uniqueIdCounter)) && uniqueIdCounter == old(uniqueIdCounter) + 1
      ensures value != UniquePlaceholder ==> uniqueIdCounter == old(uniqueIdCounter)
      ensures value !in {NowPlaceholder, NowPlus100Placeholder, UniquePlaceholder} ==> r == value
    {
      if value == NowPlaceholder {
        return toUTCString(nowMillis + serverClientTimeDelta);
      }
      if value == NowPlus100Placeholder {
        return toUTCString(nowMillis + serverClientTimeDelta + 100 * 1000);
      }
      if value == UniquePlaceholder {
        r := DecimalString(uniqueIdCounter);
        uniqueIdCounter := uniqueIdCounter + 1;
        return;
      }
      return value;
    }
  }

  /** Two `unique()` expansions in a row give different values. */
  method UniqueTwice(page: CacheTest, nowMillis: int, toUTCString: int -> string) returns (first: string, second: string)
    modifies page`uniqueIdCounter
    ensures first != second
  {
    first := page.MakeHeaderValue(UniquePlaceholder, nowMillis, toUTCString);
    second := page.MakeHeaderValue(UniquePlaceholder, nowMillis, toUTCString);
    DecimalStringInjective(old(page.uniqueIdCounter), old(page.uniqueIdCounter) + 1);
  }
}
