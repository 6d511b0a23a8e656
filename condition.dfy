/** Query conditions of the results database: each renders to an SQL
    fragment, conditions are equal exactly when their renderings are, and an
    `And` holds a flattened, de-duplicated collection of conditions that it
    renders in sorted order. */
module Condition {
  import Text

  /** A database table; its abbreviation is its first letter. */
  datatype Table = Table(name: string)
  {
    function Abbreviation(): string
      requires |name| > 0
    {
      name[..1]
    }

    /** `str(table)`: "name AS n". */
    function ToString(): string
      requires |name| > 0
    {
      name + " AS " + Abbreviation()
    }
  }

  const ObjectTable := Table("object")
  const ValueTable := Table("value")

  /** A condition. A ValueCondition's value and a TypeCondition's class path
      are kept as the strings they render to (`str(value)` and
      `get_class_path(cls)` are not modelled). */
  datatype Condition =
    | ValueCondition(symbol: string, value: string)
    | NameCondition(name: string)
    | TypeCondition(classPath: string)
    | And(conditions: seq<Condition>)

  /** `str(condition)`. An `And` joins the sorted renderings of its
      conditions with " AND ". */
  function Render(c: Condition): string
  {
    match c
    case ValueCondition(symbol, value) => ValueTable.Abbreviation() + ".value " + symbol + " " + value
    case NameCondition(name) => ObjectTable.Abbreviation() + ".name = '" + name + "'"
    case TypeCondition(classPath) => ObjectTable.Abbreviation() + ".class_path = '" + classPath + "'"
    case And(conditions) =>
      var strings := seq(|conditions|, i requires 0 <= i < |conditions| => Render(conditions[i]));
      Text.Join(" AND ", Text.SortBy(strings, s => s))
  }

  /** `__eq__` (and `__hash__`): by rendering. */
  predicate Equal(a: Condition, b: Condition)
  {
    Render(a) == Render(b)
  }

  /** `__lt__`: by rendering. */
  predicate Less(a: Condition, b: Condition)
  {
    Text.LexLess(Render(a), Render(b))
  }

  /** The renderings of the leaf conditions. */
  lemma LeafRenderings(symbol: string, value: string, name: string, classPath: string)
    ensures Render(ValueCondition(symbol, value)) == "v.value " + symbol + " " + value
    ensures Render(NameCondition(name)) == "o.name = '" + name + "'"
    ensures Render(TypeCondition(classPath)) == "o.class_path = '" + classPath + "'"
    ensures ObjectTable.ToString() == "object AS o" && ValueTable.ToString() == "value AS v"
  {
    assert ObjectTable.Abbreviation() == "o" && ValueTable.Abbreviation() == "v" by {
      Abbreviations();
    }
    assert ObjectTable.ToString() == "object AS o" && ValueTable.ToString() == "value AS v" by {
      TableStringsLiteral();
    }
  }

  lemma Abbreviations()
    ensures ObjectTable.Abbreviation() == "o" && ValueTable.Abbreviation() == "v"
  {
    assert "object"[..1] == "o";
    assert "value"[..1] == "v";
  }

  lemma TableStringsLiteral()
    ensures ObjectTable.ToString() == "object AS o" && ValueTable.ToString() == "value AS v"
  {
    Abbreviations();
  }

  /** `tables`: the table a leaf condition reads, or the union over an And. */
  function Tables(c: Condition): set<Table>
  {
    match c
    case ValueCondition(_, _) => {ValueTable}
    case NameCondition(_) => {ObjectTable}
    case TypeCondition(_) => {ObjectTable}
    case And(conditions) => set i, t | 0 <= i < |conditions| && t in Tables(conditions[i]) :: t
  }

  /** Every condition reads only the object and value tables. */
  lemma {:induction false} TablesKnown(c: Condition)
    ensures Tables(c) <= {ObjectTable, ValueTable}
  {
    if c.And? {
      forall i | 0 <= i < |c.conditions| ensures Tables(c.conditions[i]) <= {ObjectTable, ValueTable} {
        TablesKnown(c.conditions[i]);
      }
    }
  }

  /** The strings of `tables`, as `map(str, tables)`. */
  function TableStrings(tables: set<Table>): (r: set<string>)
    requires forall t :: t in tables ==> |t.name| > 0
  {
    set t | t in tables :: t.ToString()
  }

  /** `tables_string`: the sorted table strings joined by ", ". */
  function TablesString(c: Condition): string
  {
    TablesKnown(c);
    JoinedTableStrings(Tables(c))
  }

  function JoinedTableStrings(tables: set<Table>): string
    requires forall t :: t in tables ==> |t.name| > 0
  {
    Text.Join(", ", SortedSet(TableStrings(tables)))
  }

  /** Object and value tables: "object AS o, value AS v". */
  lemma TablesStringOfBoth()
    ensures JoinedTableStrings({ObjectTable, ValueTable}) == "object AS o, value AS v"
  {
    BothTables();
    JoinTwo("object AS o", "value AS v");
    BothTablesLiteral();
  }

  /** A single table: its own string. */
  lemma TablesStringOfOne()
    ensures JoinedTableStrings({ObjectTable}) == "object AS o"
    ensures JoinedTableStrings({ValueTable}) == "value AS v"
  {
    OneTable(ObjectTable);
    OneTable(ValueTable);
  }

  lemma BothTablesLiteral()
    ensures "object AS o" + ", " + "value AS v" == "object AS o, value AS v"
  {
  }

  lemma JoinTwo(a: string, b: string)
    ensures Text.Join(", ", [a, b]) == a + ", " + b
  {
    assert [a, b][1..] == [b];
  }

  lemma BothTables()
    ensures SortedSet(TableStrings({ObjectTable, ValueTable})) == ["object AS o", "value AS v"]
  {
    var o, v := ObjectTable.ToString(), ValueTable.ToString();
    assert o == "object AS o" && v == "value AS v";
    assert TableStrings({ObjectTable, ValueTable}) == {o, v};
    assert o[0] == 'o' && v[0] == 'v';
    assert Text.LexLess(o, v);
    Text.StrictlyAscendingUnique(SortedSet({o, v}), [o, v]);
  }

  lemma OneTable(t: Table)
    requires |t.name| > 0
    ensures SortedSet(TableStrings({t})) == [t.ToString()]
  {
    assert TableStrings({t}) == {t.ToString()};
    Text.StrictlyAscendingUnique(SortedSet({t.ToString()}), [t.ToString()]);
  }

  /** `m` is in `s` and no string of `s` is below it. */
  predicate Least(m: string, s: set<string>)
  {
    m in s && forall y :: y in s ==> !Text.LexLess(y, m)
  }

  /** A finite set of strings has a least element. */
  lemma {:induction false} LeastExists(s: set<string>)
    requires s != {}
    ensures exists m :: Least(m, s)
    decreases |s|
  {
    var x :| x in s;
    var rest := s - {x};
    if rest == {} {
      assert s == {x};
      Text.LexLessIrreflexive(x);
      assert Least(x, s);
    } else {
      LeastExists(rest);
      var m :| Least(m, rest);
      if Text.LexLess(x, m) {
        forall y | y in s ensures !Text.LexLess(y, x) {
          if y == x {
            Text.LexLessIrreflexive(x);
          } else {
            assert y in rest;
            if Text.LexLess(y, x) {
              Text.LexLessTransitive(y, x, m);
            }
          }
        }
        assert Least(x, s);
      } else {
        forall y | y in s ensures !Text.LexLess(y, m) {
          if y != x {
            assert y in rest;
          }
        }
        assert Least(m, s);
      }
    }
  }

  /** `sorted(s)` for a set of strings: ascending, without repeats. */
  function SortedSet(s: set<string>): (r: seq<string>)
    ensures Text.StrictlyAscending(r)
    ensures forall x :: x in r <==> x in s
    decreases |s|
  {
    if s == {} then []
    else
      LeastExists(s);
      var m :| Least(m, s);
      var rest := SortedSet(s - {m});
      assert forall y :: y in rest ==> Text.LexLess(m, y) by {
        forall y | y in rest ensures Text.LexLess(m, y) {
          Text.LexLessTotal(m, y);
        }
      }
      [m] + rest
  }

  // --- And: flattening and de-duplication --------------------------------

  /** Some condition of `acc` renders as `c` does (`c in the_set`). */
  predicate Contains(acc: seq<Condition>, c: Condition)
  {
    exists k | 0 <= k < |acc| :: Render(acc[k]) == Render(c)
  }

  /** `set.add`: an equal condition already present is kept. */
  function Add(acc: seq<Condition>, c: Condition): seq<Condition>
  {
    if Contains(acc, c) then acc else acc + [c]
  }

  /** `__iter__` of an And: its conditions sorted by rendering. */
  function Iterate(conditions: seq<Condition>): (r: seq<Condition>)
    ensures multiset(r) == multiset(conditions)
    ensures Text.SortedBy(r, Render)
  {
    Text.SortBy(conditions, Render)
  }

  /** Adding every element of `subs`, in order. */
  function AddEach(acc: seq<Condition>, subs: seq<Condition>): seq<Condition>
  {
    if |subs| == 0 then acc else Add(AddEach(acc, subs[..|subs| - 1]), subs[|subs| - 1])
  }

  /** One iteration of the loop of `And.__init__`. */
  function Absorb(acc: seq<Condition>, c: Condition): seq<Condition>
  {
    if c.And? then AddEach(acc, Iterate(c.conditions)) else Add(acc, c)
  }

  /** The conditions `And(*conditions)` holds, in the order they were added. */
  function Collected(conditions: seq<Condition>): seq<Condition>
  {
    if |conditions| == 0 then [] else Absorb(Collected(conditions[..|conditions| - 1]), conditions[|conditions| - 1])
  }

  /** `And.__init__`: a loop adding each condition, or each condition of a
      nested And, to the set. */
  method MakeAnd(conditions: seq<Condition>) returns (r: Condition)
    ensures r == And(Collected(conditions))
  {
    var acc: seq<Condition> := [];
    for i := 0 to |conditions|
      invariant acc == Collected(conditions[..i])
    {
      var c := conditions[i];
      assert conditions[..i + 1][..i] == conditions[..i];
      if c.And? {
        var subs := Iterate(c.conditions);
        ghost var start := acc;
        for j := 0 to |subs|
          invariant acc == AddEach(start, subs[..j])
        {
          assert subs[..j + 1][..j] == subs[..j];
          if !Contains(acc, subs[j]) {
            acc := acc + [subs[j]];
          }
        }
        assert subs[..|subs|] == subs;
      } else if !Contains(acc, c) {
        acc := acc + [c];
      }
    }
    assert conditions[..|conditions|] == conditions;
    r := And(acc);
  }

  /** `a & b`. */
  method Conjoin(a: Condition, b: Condition) returns (r: Condition)
    ensures r == And(Collected([a, b]))
  {
    r := MakeAnd([a, b]);
  }

  /** No two conditions render alike. */
  predicate DistinctRenders(s: seq<Condition>)
  {
    forall i, j :: 0 <= i < |s| && 0 <= j < |s| && i != j ==> Render(s[i]) != Render(s[j])
  }

  /** The renderings of `s`. */
  function Renders(s: seq<Condition>): set<string>
  {
    set k | 0 <= k < |s| :: Render(s[k])
  }

  /** The renderings of a sequence with one more condition. */
  lemma RendersAppend(s: seq<Condition>, c: Condition)
    ensures Renders(s + [c]) == Renders(s) + {Render(c)}
  {
    var r := s + [c];
    assert forall k :: 0 <= k < |s| ==> r[k] == s[k];
    assert r[|s|] == c;
  }

  /** Appending a condition that renders unlike every one present keeps the
      renderings distinct. */
  lemma DistinctAppend(s: seq<Condition>, c: Condition)
    requires DistinctRenders(s) && !Contains(s, c)
    ensures DistinctRenders(s + [c])
  {
    var r := s + [c];
    forall i, j | 0 <= i < |r| && 0 <= j < |r| && i != j ensures Render(r[i]) != Render(r[j]) {
      if i < |s| && j < |s| {
        assert r[i] == s[i] && r[j] == s[j];
      } else if i < |s| {
        assert r[i] == s[i] && r[j] == c;
      } else {
        assert r[j] == s[j] && r[i] == c;
      }
    }
  }

  /** Adding a condition adds its rendering. */
  lemma AddRenders(acc: seq<Condition>, c: Condition)
    ensures Renders(Add(acc, c)) == Renders(acc) + {Render(c)}
  {
    if Contains(acc, c) {
      var k :| 0 <= k < |acc| && Render(acc[k]) == Render(c);
      assert Render(c) in Renders(acc);
    } else {
      RendersAppend(acc, c);
    }
  }

  lemma AddKeeps(acc: seq<Condition>, c: Condition)
    requires DistinctRenders(acc)
    ensures DistinctRenders(Add(acc, c))
    ensures Renders(Add(acc, c)) == Renders(acc) + {Render(c)}
    ensures forall x :: x in Add(acc, c) ==> x in acc || x == c
  {
    AddRenders(acc, c);
    if !Contains(acc, c) {
      DistinctAppend(acc, c);
    }
  }

  lemma UnionStep(r: set<string>, before: set<string>, a: set<string>, front: set<string>, subs: set<string>, x: string)
    requires r == before + {x} && before == a + front && subs == front + {x}
    ensures r == a + subs
  {
  }

  /** Adding every element of `subs` adds their renderings. */
  lemma {:induction false} AddEachRenders(acc: seq<Condition>, subs: seq<Condition>)
    ensures Renders(AddEach(acc, subs)) == Renders(acc) + Renders(subs)
    decreases |subs|
  {
    if |subs| > 0 {
      var front := subs[..|subs| - 1];
      var last := subs[|subs| - 1];
      var before := AddEach(acc, front);
      var x := Render(last);
      assert Renders(AddEach(acc, subs)) == Renders(before) + {x} by {
        AddRenders(before, last);
      }
      assert Renders(before) == Renders(acc) + Renders(front) by {
        AddEachRenders(acc, front);
      }
      assert Renders(subs) == Renders(front) + {x} by {
        assert subs == front + [last];
        RendersAppend(front, last);
      }
      UnionStep(Renders(AddEach(acc, subs)), Renders(before), Renders(acc), Renders(front), Renders(subs), x);
    }
  }

  /** Adding every element of `subs` adds only elements of `subs`. */
  lemma {:induction false} AddEachMembers(acc: seq<Condition>, subs: seq<Condition>)
    ensures forall x :: x in AddEach(acc, subs) ==> x in acc || x in subs
    decreases |subs|
  {
    if |subs| > 0 {
      var front := subs[..|subs| - 1];
      var last := subs[|subs| - 1];
      AddEachMembers(acc, front);
      assert forall x :: x in front ==> x in subs;
    }
  }

  /** Adding every element of `subs` keeps the renderings distinct. */
  lemma {:induction false} AddEachDistinct(acc: seq<Condition>, subs: seq<Condition>)
    requires DistinctRenders(acc)
    ensures DistinctRenders(AddEach(acc, subs))
    decreases |subs|
  {
    if |subs| > 0 {
      var front := subs[..|subs| - 1];
      var before := AddEach(acc, front);
      AddEachDistinct(acc, front);
      if !Contains(before, subs[|subs| - 1]) {
        DistinctAppend(before, subs[|subs| - 1]);
      }
    }
  }

  lemma AddEachKeeps(acc: seq<Condition>, subs: seq<Condition>)
    requires DistinctRenders(acc)
    ensures DistinctRenders(AddEach(acc, subs))
    ensures Renders(AddEach(acc, subs)) == Renders(acc) + Renders(subs)
    ensures forall x :: x in AddEach(acc, subs) ==> x in acc || x in subs
  {
    AddEachDistinct(acc, subs);
    AddEachRenders(acc, subs);
    AddEachMembers(acc, subs);
  }

  /** Permuting a sequence keeps its renderings. */
  lemma RendersOfPermutation(a: seq<Condition>, b: seq<Condition>)
    requires multiset(a) == multiset(b)
    ensures Renders(a) == Renders(b)
  {
    forall s | s in Renders(a) ensures s in Renders(b) {
      var k :| 0 <= k < |a| && Render(a[k]) == s;
      assert a[k] in multiset(b);
      var q :| 0 <= q < |b| && b[q] == a[k];
    }
    forall s | s in Renders(b) ensures s in Renders(a) {
      var k :| 0 <= k < |b| && Render(b[k]) == s;
      assert b[k] in multiset(a);
      var q :| 0 <= q < |a| && a[q] == b[k];
    }
  }

  /** The renderings `And(*conditions)` must hold: those of the plain
      conditions and those of the conditions of each nested And. */
  function Expected(conditions: seq<Condition>): set<string>
  {
    if |conditions| == 0 then {}
    else
      var c := conditions[|conditions| - 1];
      Expected(conditions[..|conditions| - 1]) + (if c.And? then Renders(c.conditions) else {Render(c)})
  }

  /** Every input is a plain condition or an And of plain conditions, as
      every And built by `And.__init__` is. */
  predicate FlatInputs(conditions: seq<Condition>)
  {
    forall i, k :: 0 <= i < |conditions| && conditions[i].And? && 0 <= k < |conditions[i].conditions| ==> !conditions[i].conditions[k].And?
  }

  /** An And holds each required rendering exactly once, and (from flat
      inputs) holds no And. */
  lemma {:induction false} CollectedProperties(conditions: seq<Condition>)
    ensures DistinctRenders(Collected(conditions))
    ensures Renders(Collected(conditions)) == Expected(conditions)
    ensures FlatInputs(conditions) ==> forall x :: x in Collected(conditions) ==> !x.And?
  {
    if |conditions| > 0 {
      var front := conditions[..|conditions| - 1];
      var c := conditions[|conditions| - 1];
      CollectedProperties(front);
      var acc := Collected(front);
      assert FlatInputs(conditions) ==> FlatInputs(front) by {
        assert forall i :: 0 <= i < |front| ==> front[i] == conditions[i];
      }
      if c.And? {
        var subs := Iterate(c.conditions);
        AddEachKeeps(acc, subs);
        RendersOfPermutation(subs, c.conditions);
        forall x | x in subs ensures x in multiset(c.conditions) {
        }
      } else {
        AddKeeps(acc, c);
      }
    }
  }

  // --- And: rendering depends only on what it holds ----------------------

  lemma {:induction false} CountAtMostOne(s: seq<Condition>, x: Condition)
    requires DistinctRenders(s)
    ensures multiset(s)[x] <= 1
  {
    if |s| > 0 {
      var front := s[..|s| - 1];
      assert s == front + [s[|s| - 1]];
      assert DistinctRenders(front);
      CountAtMostOne(front, x);
      if x == s[|s| - 1] {
        assert x !in front by {
          forall k | 0 <= k < |front| ensures front[k] != x {
            assert Render(s[k]) != Render(s[|s| - 1]);
          }
        }
      }
    }
  }

  lemma CountAtLeastTwo(s: seq<Condition>, i: nat, j: nat)
    requires i < j < |s|
    ensures s[i] == s[j] ==> multiset(s)[s[i]] >= 2
  {
    assert s == s[..j] + [s[j]] + s[j + 1..];
    assert s[..j][i] == s[i];
  }

  /** A permutation of a sequence with distinct renderings has distinct
      renderings. */
  lemma PermutationDistinct(a: seq<Condition>, b: seq<Condition>)
    requires multiset(a) == multiset(b) && DistinctRenders(a)
    ensures DistinctRenders(b)
  {
    forall i, j | 0 <= i < |b| && 0 <= j < |b| && i < j ensures Render(b[i]) != Render(b[j]) {
      CountAtLeastTwo(b, i, j);
      CountAtMostOne(a, b[i]);
      assert b[i] in multiset(a) && b[j] in multiset(a);
      var p :| 0 <= p < |a| && a[p] == b[i];
      var q :| 0 <= q < |a| && a[q] == b[j];
    }
  }

  /** The renderings of `s`, in order. */
  function RenderSeq(s: seq<Condition>): (r: seq<string>)
    ensures |r| == |s| && forall i :: 0 <= i < |s| ==> r[i] == Render(s[i])
  {
    seq(|s|, i requires 0 <= i < |s| => Render(s[i]))
  }

  /** The rendering of an And of conditions with distinct renderings is its
      set of renderings in ascending order, joined by " AND ". */
  lemma AndRendering(held: seq<Condition>)
    requires DistinctRenders(held)
    ensures Render(And(held)) == Text.Join(" AND ", SortedSet(Renders(held)))
  {
    var strings := RenderSeq(held);
    var sorted := Text.SortBy(strings, s => s);
    assert Render(And(held)) == Text.Join(" AND ", sorted);
    assert forall i, j :: 0 <= i < |strings| && 0 <= j < |strings| && i != j ==> strings[i] != strings[j];
    StringsPermutationDistinct(strings, sorted);
    Text.SortedDistinctKeysAscending(sorted, s => s);
    assert Text.Keys(sorted, s => s) == sorted;
    forall x ensures x in sorted <==> x in Renders(held) {
      assert x in sorted <==> x in multiset(strings);
    }
    Text.StrictlyAscendingUnique(sorted, SortedSet(Renders(held)));
  }

  lemma StringsPermutationDistinct(a: seq<string>, b: seq<string>)
    requires multiset(a) == multiset(b)
    requires forall i, j :: 0 <= i < |a| && 0 <= j < |a| && i != j ==> a[i] != a[j]
    ensures forall i, j :: 0 <= i < j < |b| ==> b[i] != b[j]
  {
    forall i, j | 0 <= i < j < |b| ensures b[i] != b[j] {
      assert b == b[..j] + [b[j]] + b[j + 1..];
      assert b[..j][i] == b[i];
      StringCountAtMostOne(a, b[i]);
    }
  }

  lemma {:induction false} StringCountAtMostOne(s: seq<string>, x: string)
    requires forall i, j :: 0 <= i < |s| && 0 <= j < |s| && i != j ==> s[i] != s[j]
    ensures multiset(s)[x] <= 1
  {
    if |s| > 0 {
      var front := s[..|s| - 1];
      assert s == front + [s[|s| - 1]];
      StringCountAtMostOne(front, x);
    }
  }

  /** Two Ands built from inputs that require the same renderings render
      (and so compare) equal, whatever the order of the inputs. */
  lemma AndDependsOnlyOnRenderings(xs: seq<Condition>, ys: seq<Condition>)
    requires Expected(xs) == Expected(ys)
    ensures Equal(And(Collected(xs)), And(Collected(ys)))
    ensures Render(And(Collected(xs))) == Text.Join(" AND ", SortedSet(Expected(xs)))
  {
    CollectedProperties(xs);
    CollectedProperties(ys);
    AndRendering(Collected(xs));
    AndRendering(Collected(ys));
  }

  /** `a & b == b & a`. */
  lemma ConjoinCommutative(a: Condition, b: Condition)
    ensures Equal(And(Collected([a, b])), And(Collected([b, a])))
  {
    assert [a, b][..1] == [a] && [b, a][..1] == [b];
    assert [a][..0] == [] && [b][..0] == [];
    AndDependsOnlyOnRenderings([a, b], [b, a]);
  }

  /** `a & a` holds the single condition `a` and renders as `a` does. */
  lemma ConjoinIdempotent(a: Condition)
    requires !a.And?
    ensures Collected([a, a]) == [a]
    ensures Render(And(Collected([a, a]))) == Render(a)
  {
    CollectedTwice(a);
    assert DistinctRenders([a]);
    AndRendering([a]);
    assert Renders([a]) == {Render(a)};
    Text.StrictlyAscendingUnique(SortedSet({Render(a)}), [Render(a)]);
  }

  lemma CollectedTwice(a: Condition)
    requires !a.And?
    ensures Collected([a, a]) == [a]
  {
    assert [a, a][..1] == [a];
    assert [a][..0] == [];
    assert Collected([a]) == Add([], a) == [a];
    assert Contains([a], a);
  }
}
