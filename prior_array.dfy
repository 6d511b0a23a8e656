/** An array of priors: one prior per index of a shape, each stored as an
    attribute whose name encodes the index, and the array of values an
    instance takes for given prior values. */
module PriorArray {
  import opened Wrappers
  import Text

  /** An index into an array: one non-negative component per dimension. */
  type Index = seq<nat>

  // --- Indices in row-major order (`np.ndindex`) ---------------------------

  /** The number of indices of `shape`. */
  function Product(shape: seq<nat>): nat
  {
    if |shape| == 0 then 1 else shape[0] * Product(shape[1..])
  }

  /** `index` lies inside `shape`. */
  predicate InBounds(index: Index, shape: seq<nat>)
  {
    |index| == |shape| && forall k :: 0 <= k < |shape| ==> index[k] < shape[k]
  }

  /** Each index of `rest` with `i` put in front. */
  function Prefixed(i: nat, rest: seq<Index>): (r: seq<Index>)
    ensures |r| == |rest| && forall k :: 0 <= k < |r| ==> r[k] == [i] + rest[k]
  {
    seq(|rest|, k requires 0 <= k < |rest| => [i] + rest[k])
  }

  /** The indices of `shape` in the order `np.ndindex` yields them: the last
      component varies fastest. A shape with no dimension has one index,
      the empty one. */
  function Indices(shape: seq<nat>): (r: seq<Index>)
    ensures forall k :: 0 <= k < |r| ==> InBounds(r[k], shape)
    decreases |shape|, 1
  {
    if |shape| == 0 then [[]] else Rows(shape, 0)
  }

  /** The indices of `shape` whose first component is at least `i`. */
  function Rows(shape: seq<nat>, i: nat): (r: seq<Index>)
    requires |shape| > 0 && i <= shape[0]
    ensures forall k :: 0 <= k < |r| ==> InBounds(r[k], shape) && r[k][0] >= i
    decreases |shape|, 0, shape[0] - i
  {
    if i == shape[0] then []
    else
      var inner := Indices(shape[1..]);
      var first := Prefixed(i, inner);
      assert forall k :: 0 <= k < |first| ==> InBounds(first[k], shape) by {
        forall k | 0 <= k < |first| ensures InBounds(first[k], shape) {
          assert InBounds(inner[k], shape[1..]);
          assert forall d :: 1 <= d < |shape| ==> first[k][d] == inner[k][d - 1];
        }
      }
      first + Rows(shape, i + 1)
  }

  lemma MulSucc(n: nat, p: nat)
    ensures (n + 1) * p == p + n * p
  {
  }

  /** `np.ndindex(*shape)` yields as many indices as the shape has cells. */
  lemma {:induction false} IndicesCount(shape: seq<nat>)
    ensures |Indices(shape)| == Product(shape)
    decreases |shape|, 1
  {
    if |shape| > 0 {
      RowsCount(shape, 0);
    }
  }

  lemma {:induction false} RowsCount(shape: seq<nat>, i: nat)
    requires |shape| > 0 && i <= shape[0]
    ensures |Rows(shape, i)| == (shape[0] - i) * Product(shape[1..])
    decreases |shape|, 0, shape[0] - i
  {
    if i < shape[0] {
      IndicesCount(shape[1..]);
      RowsCount(shape, i + 1);
      MulSucc(shape[0] - i - 1, Product(shape[1..]));
    }
  }

  /** Every index inside the shape is yielded. */
  lemma {:induction false} IndicesComplete(shape: seq<nat>, index: Index)
    requires InBounds(index, shape)
    ensures index in Indices(shape)
    decreases |shape|, 1
  {
    if |shape| == 0 {
      assert index == [];
    } else {
      RowsComplete(shape, 0, index);
    }
  }

  lemma {:induction false} RowsComplete(shape: seq<nat>, i: nat, index: Index)
    requires |shape| > 0 && InBounds(index, shape) && i <= index[0]
    ensures index in Rows(shape, i)
    decreases |shape|, 0, shape[0] - i
  {
    var inner := Indices(shape[1..]);
    if i == index[0] {
      assert InBounds(index[1..], shape[1..]);
      IndicesComplete(shape[1..], index[1..]);
      var k :| 0 <= k < |inner| && inner[k] == index[1..];
      assert Prefixed(i, inner)[k] == index;
    } else {
      RowsComplete(shape, i + 1, index);
    }
  }

  /** Row-major order on indices of equal length. */
  predicate IndexLess(a: Index, b: Index)
    decreases |a|
  {
    |a| > 0 && |b| > 0 && (a[0] < b[0] || (a[0] == b[0] && IndexLess(a[1..], b[1..])))
  }

  /** Strictly ascending in row-major order, so without repeats. */
  predicate Ascending(s: seq<Index>)
  {
    forall j, k :: 0 <= j < k < |s| ==> IndexLess(s[j], s[k])
  }

  lemma IndexLessIrreflexive(a: Index)
    ensures !IndexLess(a, a)
  {
    if |a| > 0 {
      IndexLessIrreflexive(a[1..]);
    }
  }

  lemma PrefixedAscending(i: nat, rest: seq<Index>)
    requires Ascending(rest)
    ensures Ascending(Prefixed(i, rest))
  {
    var r := Prefixed(i, rest);
    forall j, k | 0 <= j < k < |r| ensures IndexLess(r[j], r[k]) {
      assert r[j][1..] == rest[j] && r[k][1..] == rest[k];
    }
  }

  /** `np.ndindex` yields the indices in strictly ascending row-major order,
      each once. */
  lemma {:induction false} IndicesAscending(shape: seq<nat>)
    ensures Ascending(Indices(shape))
    decreases |shape|, 1
  {
    if |shape| > 0 {
      RowsAscending(shape, 0);
    }
  }

  lemma {:induction false} RowsAscending(shape: seq<nat>, i: nat)
    requires |shape| > 0 && i <= shape[0]
    ensures Ascending(Rows(shape, i))
    decreases |shape|, 0, shape[0] - i
  {
    if i < shape[0] {
      var first := Prefixed(i, Indices(shape[1..]));
      var others := Rows(shape, i + 1);
      IndicesAscending(shape[1..]);
      PrefixedAscending(i, Indices(shape[1..]));
      RowsAscending(shape, i + 1);
      var r := first + others;
      forall j, k | 0 <= j < k < |r| ensures IndexLess(r[j], r[k]) {
        if j < |first| && k >= |first| {
          assert r[j][0] == i && r[k][0] >= i + 1;
          assert |r[j]| > 0 && |r[k]| > 0;
        } else if j >= |first| {
          assert r[j] == others[j - |first|] && r[k] == others[k - |first|];
        }
      }
    }
  }

  // --- Attribute names ----------------------------------------------------

  /** `_make_key`: "prior_" then the components joined by "_". */
  function MakeKey(index: Index): string
  {
    "prior_" + Text.Join("_", Parts(index))
  }

  /** `map(str, index)`. */
  function Parts(index: Index): (r: seq<string>)
    ensures |r| == |index| && forall k :: 0 <= k < |index| ==> r[k] == Text.NatToString(index[k])
  {
    seq(|index|, k requires 0 <= k < |index| => Text.NatToString(index[k]))
  }

  lemma MakeKeyExample()
    ensures MakeKey([1, 2]) == "prior_1_2"
  {
    assert Parts([1, 2]) == ["1", "2"];
    assert Parts([1, 2])[1..] == ["2"];
  }

  /** Distinct indices have distinct keys, so no two cells share an
      attribute. */
  lemma MakeKeyInjective(a: Index, b: Index)
    requires MakeKey(a) == MakeKey(b)
    ensures a == b
  {
    var pa, pb := Parts(a), Parts(b);
    assert Text.Join("_", pa) == MakeKey(a)[6..];
    assert Text.Join("_", pb) == MakeKey(b)[6..];
    forall k | 0 <= k < |pa| ensures pa[k] != [] && '_' !in pa[k] {
      assert forall c :: c in pa[k] ==> '0' <= c <= '9';
    }
    forall k | 0 <= k < |pb| ensures pb[k] != [] && '_' !in pb[k] {
      assert forall c :: c in pb[k] ==> '0' <= c <= '9';
    }
    Text.JoinInjective('_', pa, pb);
    forall k | 0 <= k < |a| ensures a[k] == b[k] {
      Text.NatToStringInjective(a[k], b[k]);
    }
  }

  // --- The array ------------------------------------------------------------

  /** A prior: its distribution (not modelled beyond a description) and its
      id. `prior.new()` is the same distribution with the next id. */
  datatype Prior = Prior(distribution: string, id: nat)

  /** The attributes the constructor writes: the `k`-th index yielded gets
      a copy of `prior` with id `firstId + k`. */
  function Attributes(indices: seq<Index>, prior: Prior, firstId: nat): map<string, Prior>
  {
    if |indices| == 0 then map[]
    else
      var n := |indices| - 1;
      Attributes(indices[..n], prior, firstId)[MakeKey(indices[n]) := prior.(id := firstId + n)]
  }

  /** The constructor sets one attribute per index yielded, and no other. */
  lemma {:induction false} AttributesKeys(indices: seq<Index>, prior: Prior, firstId: nat)
    ensures forall key :: key in Attributes(indices, prior, firstId) <==> exists k :: 0 <= k < |indices| && key == MakeKey(indices[k])
  {
    if |indices| > 0 {
      var n := |indices| - 1;
      var front := indices[..n];
      AttributesKeys(front, prior, firstId);
      var attributes := Attributes(indices, prior, firstId);
      assert attributes == Attributes(front, prior, firstId)[MakeKey(indices[n]) := prior.(id := firstId + n)];
      forall key ensures key in attributes <==> exists k :: 0 <= k < |indices| && key == MakeKey(indices[k]) {
        if key in attributes && key != MakeKey(indices[n]) {
          var k :| 0 <= k < n && key == MakeKey(front[k]);
          assert indices[k] == front[k];
        }
      }
    }
  }

  /** In an ascending sequence, distinct positions have distinct keys. */
  lemma DistinctKeys(indices: seq<Index>, j: nat, k: nat)
    requires Ascending(indices) && j < k < |indices|
    ensures MakeKey(indices[j]) != MakeKey(indices[k])
  {
    if MakeKey(indices[j]) == MakeKey(indices[k]) {
      MakeKeyInjective(indices[j], indices[k]);
      IndexLessIrreflexive(indices[k]);
    }
  }

  /** For indices without repeats, the `k`-th index's attribute is a new
      prior with id `firstId + k`. */
  lemma {:induction false} AttributesValues(indices: seq<Index>, prior: Prior, firstId: nat)
    requires Ascending(indices)
    ensures forall k :: 0 <= k < |indices| ==>
      MakeKey(indices[k]) in Attributes(indices, prior, firstId)
      && Attributes(indices, prior, firstId)[MakeKey(indices[k])] == prior.(id := firstId + k)
  {
    if |indices| > 0 {
      var n := |indices| - 1;
      var front := indices[..n];
      assert Ascending(front);
      AttributesValues(front, prior, firstId);
      forall k | 0 <= k < n ensures MakeKey(front[k]) != MakeKey(indices[n]) {
        DistinctKeys(indices, k, n);
      }
    }
  }

  /** A value array (`np.zeros(shape)` and what is written into it): one
      value per index. */
  type Values = map<Index, real>

  function Zeros(shape: seq<nat>): Values
  {
    map index | index in Indices(shape) :: 0.0
  }

  /** `np.zeros(shape)` has one cell, holding 0.0, per index of the shape. */
  lemma ZerosCells(shape: seq<nat>)
    ensures forall index :: index in Zeros(shape) <==> InBounds(index, shape)
    ensures forall index :: index in Zeros(shape) ==> Zeros(shape)[index] == 0.0
  {
    forall index | InBounds(index, shape) ensures index in Zeros(shape) {
      IndicesComplete(shape, index);
    }
  }

  /** The loop of `_instance_for_arguments` over `indices`: each cell takes
      the value its prior is given in `arguments`. A missing attribute
      (AttributeError) or a prior without a value (KeyError) is `None`. */
  function Fill(indices: seq<Index>, cells: Values, attributes: map<string, Prior>, arguments: map<Prior, real>): Option<Values>
  {
    if |indices| == 0 then Some(cells)
    else
      var key := MakeKey(indices[0]);
      if key !in attributes || attributes[key] !in arguments then None
      else Fill(indices[1..], cells[indices[0] := arguments[attributes[key]]], attributes, arguments)
  }

  /** Every index has an attribute whose prior has a value. */
  predicate Covered(indices: seq<Index>, attributes: map<string, Prior>, arguments: map<Prior, real>)
  {
    forall k :: 0 <= k < |indices| ==> MakeKey(indices[k]) in attributes && attributes[MakeKey(indices[k])] in arguments
  }

  /** When every index is covered, filling writes each index's value and
      leaves every other cell as it was. */
  lemma {:induction false} FillValues(indices: seq<Index>, cells: Values, attributes: map<string, Prior>, arguments: map<Prior, real>)
    requires Covered(indices, attributes, arguments)
    ensures Fill(indices, cells, attributes, arguments).Some?
    ensures var r := Fill(indices, cells, attributes, arguments).value;
      && (forall index :: index in r <==> index in cells || index in indices)
      && (forall index :: index in indices ==> r[index] == arguments[attributes[MakeKey(index)]])
      && (forall index :: index in cells && index !in indices ==> r[index] == cells[index])
  {
    if |indices| > 0 {
      var key := MakeKey(indices[0]);
      var next := cells[indices[0] := arguments[attributes[key]]];
      assert Covered(indices[1..], attributes, arguments) by {
        forall k | 0 <= k < |indices[1..]| ensures MakeKey(indices[1..][k]) in attributes && attributes[MakeKey(indices[1..][k])] in arguments {
          assert indices[1..][k] == indices[k + 1];
        }
      }
      FillValues(indices[1..], next, attributes, arguments);
      forall index | index in indices ensures index == indices[0] || index in indices[1..] {
        var k :| 0 <= k < |indices| && indices[k] == index;
        if k > 0 {
          assert indices[1..][k - 1] == index;
        }
      }
    }
  }

  class Array {
    const shape: seq<nat>
    /** The attributes set on the object, by name. */
    var attributes: map<string, Prior>
    /** What the `np.ndindex` iterator kept in `self.indices` has still to
        yield. */
    var indices: seq<Index>

    /** `self[index]`: the attribute named after the index, or None
        (AttributeError) when there is none. */
    function GetItem(index: Index): Option<Prior>
      reads this
    {
      if MakeKey(index) in attributes then Some(attributes[MakeKey(index)]) else None
    }

    /** `self[index] = value`. */
    method SetItem(index: Index, value: Prior)
      modifies this
      ensures attributes == old(attributes)[MakeKey(index) := value]
      ensures indices == old(indices)
    {
      attributes := attributes[MakeKey(index) := value];
    }

    /** `Array(shape, prior)`: a new prior at every index, in row-major
        order; the iterator kept in `self.indices` is used up. The ids of the
        new priors are drawn from `firstId` on. */
    constructor(shape: seq<nat>, prior: Prior, firstId: nat)
      ensures this.shape == shape
      ensures attributes == Attributes(Indices(shape), prior, firstId)
      ensures indices == []
    {
      this.shape := shape;
      attributes := map[];
      indices := Indices(shape);
      new;
      var k := 0;
      while |indices| > 0
        invariant 0 <= k <= |Indices(shape)|
        invariant indices == Indices(shape)[k..]
        invariant attributes == Attributes(Indices(shape)[..k], prior, firstId)
        decreases |indices|
      {
        var index := indices[0];
        indices := indices[1..];
        SetItem(index, prior.(id := firstId + k));
        assert Indices(shape)[..k + 1][..k] == Indices(shape)[..k];
        k := k + 1;
      }
      assert Indices(shape)[..k] == Indices(shape);
    }

    /** `_instance_for_arguments` as written: a zero array, filled for each
        index the stored iterator still yields. */
    method InstanceForArguments(arguments: map<Prior, real>) returns (r: Option<Values>)
      ensures r == Fill(indices, Zeros(shape), attributes, arguments)
      ensures indices == [] ==> r == Some(Zeros(shape))
    {
      var cells := Zeros(shape);
      var i := 0;
      while i < |indices|
        invariant 0 <= i <= |indices|
        invariant Fill(indices, Zeros(shape), attributes, arguments) == Fill(indices[i..], cells, attributes, arguments)
      {
        var key := MakeKey(indices[i]);
        if key !in attributes || attributes[key] !in arguments {
          assert indices[i..][0] == indices[i];
          return None;
        }
        assert indices[i..][1..] == indices[i + 1..];
        cells := cells[indices[i] := arguments[attributes[key]]];
        i := i + 1;
      }
      r := Some(cells);
    }

    /** `_instance_for_arguments` with a fresh `np.ndindex(*self.shape)`:
        every index of the shape is filled. */
    method InstanceForArgumentsFixed(arguments: map<Prior, real>) returns (r: Option<Values>)
      ensures r == Fill(Indices(shape), Zeros(shape), attributes, arguments)
    {
      var all := Indices(shape);
      var cells := Zeros(shape);
      var i := 0;
      while i < |all|
        invariant 0 <= i <= |all|
        invariant Fill(all, Zeros(shape), attributes, arguments) == Fill(all[i..], cells, attributes, arguments)
      {
        var key := MakeKey(all[i]);
        if key !in attributes || attributes[key] !in arguments {
          assert all[i..][0] == all[i];
          return None;
        }
        assert all[i..][1..] == all[i + 1..];
        cells := cells[all[i] := arguments[attributes[key]]];
        i := i + 1;
      }
      r := Some(cells);
    }
  }

  /** Reading back a written index gives the value written; every other
      index is unaffected. */
  lemma GetAfterSet(attributes: map<string, Prior>, index: Index, other: Index, value: Prior)
    ensures MakeKey(index) in attributes[MakeKey(index) := value]
    ensures attributes[MakeKey(index) := value][MakeKey(index)] == value
    ensures other != index ==>
      (MakeKey(other) in attributes[MakeKey(index) := value] <==> MakeKey(other) in attributes)
      && (MakeKey(other) in attributes ==> attributes[MakeKey(index) := value][MakeKey(other)] == attributes[MakeKey(other)])
  {
    if MakeKey(other) == MakeKey(index) {
      MakeKeyInjective(other, index);
    }
  }

  /** The constructor gives every index of the shape its own new prior, the
      `k`-th index in row-major order the id `firstId + k`, and sets no other
      attribute. */
  lemma ConstructedAttributes(shape: seq<nat>, prior: Prior, firstId: nat)
    ensures var attributes := Attributes(Indices(shape), prior, firstId);
      && (forall index :: InBounds(index, shape) ==> MakeKey(index) in attributes && attributes[MakeKey(index)].distribution == prior.distribution)
      && (forall key :: key in attributes ==> exists index :: InBounds(index, shape) && key == MakeKey(index))
      && (forall k :: 0 <= k < |Indices(shape)| ==> attributes[MakeKey(Indices(shape)[k])] == prior.(id := firstId + k))
  {
    IndicesAscending(shape);
    AttributesKeys(Indices(shape), prior, firstId);
    AttributesValues(Indices(shape), prior, firstId);
    forall index | InBounds(index, shape) ensures MakeKey(index) in Attributes(Indices(shape), prior, firstId) {
      IndicesComplete(shape, index);
    }
  }

  /** With a fresh iterator, every cell of the instance holds the value of
      the prior stored for its index. */
  lemma FixedInstanceValues(shape: seq<nat>, attributes: map<string, Prior>, arguments: map<Prior, real>)
    requires forall index :: InBounds(index, shape) ==> MakeKey(index) in attributes && attributes[MakeKey(index)] in arguments
    ensures Fill(Indices(shape), Zeros(shape), attributes, arguments).Some?
    ensures var r := Fill(Indices(shape), Zeros(shape), attributes, arguments).value;
      && (forall index :: index in r <==> InBounds(index, shape))
      && (forall index :: InBounds(index, shape) ==> r[index] == arguments[attributes[MakeKey(index)]])
  {
    FillValues(Indices(shape), Zeros(shape), attributes, arguments);
    ZerosCells(shape);
    forall index | InBounds(index, shape) ensures index in Indices(shape) {
      IndicesComplete(shape, index);
    }
  }

  /** The discrepancy on a one-cell array whose prior is given 1.0: as
      written the cell is 0.0, with a fresh iterator it is 1.0. */
  lemma InstanceDiscrepancy()
    ensures var prior := Prior("uniform", 0);
      var attributes := Attributes(Indices([1]), prior, 0);
      var arguments := map[prior := 1.0];
      && Fill([], Zeros([1]), attributes, arguments) == Some(map[[0] := 0.0])
      && Fill(Indices([1]), Zeros([1]), attributes, arguments) == Some(map[[0] := 1.0])
  {
    var prior := Prior("uniform", 0);
    assert Indices([1]) == [[0]] by {
      assert Indices([1][1..]) == [[]];
      assert Rows([1], 1) == [];
      assert [0] + [] == [0];
      assert Prefixed(0, [[]])[0] == [0];
      assert Prefixed(0, [[]]) == [[0]];
    }
    assert Zeros([1]) == map[[0] := 0.0];
    var attributes := Attributes([[0]], prior, 0);
    assert attributes == map[MakeKey([0]) := prior] by {
      assert [[0]][..0] == [];
    }
    var arguments := map[prior := 1.0];
    assert Fill([[0]], Zeros([1]), attributes, arguments) == Fill([], Zeros([1])[[0] := 1.0], attributes, arguments);
    assert Zeros([1])[[0] := 1.0] == map[[0] := 1.0];
  }
}
