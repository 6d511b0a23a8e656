/** String helpers shared by the model: Python's `sep.join`, `str` of a
    non-negative int and of a tuple of them, Python's ordering of `str`
    values (code point by code point) and `sorted` on a list, keyed by a
    string. */
module Text {

  /** `sep.join(parts)`. */
  function Join(sep: string, parts: seq<string>): string
  {
    if |parts| == 0 then ""
    else if |parts| == 1 then parts[0]
    else parts[0] + sep + Join(sep, parts[1..])
  }

  lemma JoinLength(sep: string, parts: seq<string>)
    ensures |parts| > 0 ==> |Join(sep, parts)| >= |parts[0]|
    ensures |parts| > 1 ==> |Join(sep, parts)| > |parts[0]| + |sep| - 1
  {
  }

  /** The decimal digit for `d`. */
  function Digit(d: nat): (c: char)
    requires d < 10
    ensures '0' <= c <= '9'
  {
    ('0' as int + d) as char
  }

  /** `str(n)` for an int `n >= 0`: its decimal digits, most significant first. */
  function NatToString(n: nat): (s: string)
    ensures |s| > 0
    ensures forall i :: 0 <= i < |s| ==> '0' <= s[i] <= '9'
  {
    if n < 10 then [Digit(n)] else NatToString(n / 10) + [Digit(n % 10)]
  }

  /** `int(s)` for a string of decimal digits. */
  function ParseNat(s: string): nat
    requires forall i :: 0 <= i < |s| ==> '0' <= s[i] <= '9'
  {
    if |s| == 0 then 0
    else ParseNat(s[..|s| - 1]) * 10 + (s[|s| - 1] as int - '0' as int)
  }

  /** Reading back the decimal digits of `n` gives `n`. */
  lemma {:induction false} ParseNatToString(n: nat)
    ensures ParseNat(NatToString(n)) == n
  {
    var s := NatToString(n);
    if n >= 10 {
      ParseNatToString(n / 10);
      assert s[..|s| - 1] == NatToString(n / 10);
    }
  }

  /** Distinct numbers have distinct decimal strings. */
  lemma NatToStringInjective(m: nat, n: nat)
    requires NatToString(m) == NatToString(n)
    ensures m == n
  {
    ParseNatToString(m);
    ParseNatToString(n);
  }

  /** The index of the first `c` in `s`, or `|s|` when there is none. */
  function FirstIndexOf(s: string, c: char): (k: nat)
    ensures k <= |s|
  {
    if |s| == 0 || s[0] == c then 0 else 1 + FirstIndexOf(s[1..], c)
  }

  lemma {:induction false} FirstIndexAfterPrefix(x: string, rest: string, c: char)
    requires c !in x
    ensures FirstIndexOf(x + rest, c) == |x| + FirstIndexOf(rest, c)
  {
    if |x| > 0 {
      assert (x + rest)[1..] == x[1..] + rest;
      FirstIndexAfterPrefix(x[1..], rest, c);
    } else {
      assert x + rest == rest;
    }
  }

  /** Where the first part of a join ends and what follows it. */
  lemma JoinFirstPart(sep: char, parts: seq<string>)
    requires |parts| > 0 && sep !in parts[0]
    ensures FirstIndexOf(Join([sep], parts), sep) == |parts[0]|
    ensures |parts[0]| <= |Join([sep], parts)| && Join([sep], parts)[..|parts[0]|] == parts[0]
    ensures |parts| > 1 ==> Join([sep], parts)[|parts[0]| + 1..] == Join([sep], parts[1..])
    ensures |parts| == 1 <==> |Join([sep], parts)| == |parts[0]|
  {
    if |parts| == 1 {
      FirstIndexAfterPrefix(parts[0], "", sep);
      assert parts[0] + "" == parts[0];
    } else {
      var rest := Join([sep], parts[1..]);
      FirstIndexAfterPrefix(parts[0], [sep] + rest, sep);
      assert parts[0] + [sep] + rest == parts[0] + ([sep] + rest);
    }
  }

  /** `sep.join` with a one-character separator is injective on lists of
      non-empty parts that do not contain the separator. */
  lemma {:induction false} JoinInjective(sep: char, a: seq<string>, b: seq<string>)
    requires forall i :: 0 <= i < |a| ==> a[i] != [] && sep !in a[i]
    requires forall i :: 0 <= i < |b| ==> b[i] != [] && sep !in b[i]
    requires Join([sep], a) == Join([sep], b)
    ensures a == b
  {
    if |a| == 0 || |b| == 0 {
      JoinLength([sep], a);
      JoinLength([sep], b);
      return;
    }
    JoinFirstPart(sep, a);
    JoinFirstPart(sep, b);
    assert a[0] == b[0];
    if |a| == 1 || |b| == 1 {
      assert |a| == 1 && |b| == 1;
      assert a == [a[0]] && b == [b[0]];
    } else {
      JoinInjective(sep, a[1..], b[1..]);
      assert a == [a[0]] + a[1..] && b == [b[0]] + b[1..];
    }
  }

  /** `str(t)` for a tuple `t` of non-negative ints: "(1, 2)", and "(1,)" for one element. */
  function TupleString(t: seq<nat>): string
  {
    var parts := seq(|t|, i requires 0 <= i < |t| => NatToString(t[i]));
    "(" + Join(", ", parts) + (if |t| == 1 then "," else "") + ")"
  }

  /** Python's `a < b` on `str`: lexicographic by code point, a proper prefix first. */
  predicate LexLess(a: string, b: string)
  {
    if |a| == 0 then |b| > 0
    else if |b| == 0 then false
    else if a[0] == b[0] then LexLess(a[1..], b[1..])
    else a[0] < b[0]
  }

  lemma {:induction false} LexLessIrreflexive(a: string)
    ensures !LexLess(a, a)
  {
    if |a| > 0 { LexLessIrreflexive(a[1..]); }
  }

  lemma {:induction false} LexLessTransitive(a: string, b: string, c: string)
    requires LexLess(a, b) && LexLess(b, c)
    ensures LexLess(a, c)
  {
    if |a| > 0 && |b| > 0 && |c| > 0 && a[0] == b[0] == c[0] {
      LexLessTransitive(a[1..], b[1..], c[1..]);
    }
  }

  /** Two different strings are ordered one way or the other, never both. */
  lemma {:induction false} LexLessTotal(a: string, b: string)
    ensures a != b <==> (LexLess(a, b) || LexLess(b, a))
    ensures !(LexLess(a, b) && LexLess(b, a))
  {
    if |a| > 0 && |b| > 0 && a[0] == b[0] {
      LexLessTotal(a[1..], b[1..]);
      assert a == [a[0]] + a[1..] && b == [b[0]] + b[1..];
    } else if |a| == 0 || |b| == 0 {
      LexLessIrreflexive(a);
    }
  }

  /** `s` is in ascending order of `key` (equal keys allowed). */
  ghost predicate SortedBy<T>(s: seq<T>, key: T -> string)
  {
    forall i, j :: 0 <= i < j < |s| ==> !LexLess(key(s[j]), key(s[i]))
  }

  /** Inserts `x` before the first element whose key is not smaller than its own. */
  function Insert<T>(x: T, s: seq<T>, key: T -> string): (r: seq<T>)
    ensures multiset(r) == multiset(s) + multiset{x}
    ensures |r| == |s| + 1
  {
    if |s| == 0 || !LexLess(key(s[0]), key(x)) then [x] + s
    else
      assert s == [s[0]] + s[1..];
      [s[0]] + Insert(x, s[1..], key)
  }

  /** Every element of `Insert(x, s, key)` is `x` or an element of `s`. */
  lemma InsertElements<T>(x: T, s: seq<T>, key: T -> string, j: nat)
    requires j < |Insert(x, s, key)|
    ensures Insert(x, s, key)[j] == x || Insert(x, s, key)[j] in s
  {
    var r := Insert(x, s, key);
    assert r[j] in multiset(s) + multiset{x};
  }

  lemma {:induction false} InsertSorted<T>(x: T, s: seq<T>, key: T -> string)
    requires SortedBy(s, key)
    ensures SortedBy(Insert(x, s, key), key)
  {
    if |s| == 0 {
    } else if !LexLess(key(s[0]), key(x)) {
      forall i, j | 0 <= i < j < |[x] + s|
        ensures !LexLess(key(([x] + s)[j]), key(([x] + s)[i]))
      {
        if i == 0 && LexLess(key(s[j - 1]), key(x)) {
          LexLessTotal(key(s[0]), key(x));
          if key(s[0]) != key(x) {
            LexLessTransitive(key(s[j - 1]), key(x), key(s[0]));
          }
        }
      }
    } else {
      var rest := Insert(x, s[1..], key);
      InsertSorted(x, s[1..], key);
      forall i, j | 0 <= i < j < |[s[0]] + rest|
        ensures !LexLess(key(([s[0]] + rest)[j]), key(([s[0]] + rest)[i]))
      {
        if i == 0 {
          var y := rest[j - 1];
          InsertElements(x, s[1..], key, j - 1);
          if y == x {
            LexLessTotal(key(s[0]), key(x));
          } else {
            var k :| 0 <= k < |s[1..]| && s[1..][k] == y;
            assert s[k + 1] == y;
          }
        }
      }
    }
  }

  /** `sorted(s, key=key)`: a permutation of `s` in ascending key order. */
  function SortBy<T>(s: seq<T>, key: T -> string): (r: seq<T>)
    ensures multiset(r) == multiset(s)
    ensures SortedBy(r, key)
  {
    if |s| == 0 then []
    else
      assert s == [s[0]] + s[1..];
      var rest := SortBy(s[1..], key);
      InsertSorted(s[0], rest, key);
      Insert(s[0], rest, key)
  }

  /** The keys of `s`, in order (`map(key, s)`). */
  function Keys<T>(s: seq<T>, key: T -> string): (r: seq<string>)
    ensures |r| == |s|
  {
    seq(|s|, i requires 0 <= i < |s| => key(s[i]))
  }

  /** Ascending without repeats. */
  ghost predicate StrictlyAscending(s: seq<string>)
  {
    forall i, j :: 0 <= i < j < |s| ==> LexLess(s[i], s[j])
  }

  /** Two strictly ascending lists with the same elements are the same list:
      this is why sorting the same set of strings in any start order gives one result. */
  lemma {:induction false} StrictlyAscendingUnique(r1: seq<string>, r2: seq<string>)
    requires StrictlyAscending(r1) && StrictlyAscending(r2)
    requires forall x :: x in r1 <==> x in r2
    ensures r1 == r2
  {
    if |r1| > 0 { assert r1[0] in r1; }
    if |r2| > 0 { assert r2[0] in r2; }
    if |r1| == 0 || |r2| == 0 {
      return;
    }
    var a, b := r1[0], r2[0];
    var ia :| 0 <= ia < |r2| && r2[ia] == a;
    var ib :| 0 <= ib < |r1| && r1[ib] == b;
    LexLessTotal(a, b);
    assert a == b || LexLess(a, b);
    assert a == b || LexLess(b, a);
    var t1, t2 := r1[1..], r2[1..];
    LexLessIrreflexive(a);
    forall x ensures x in t1 <==> x in t2 {
      if x in t1 {
        var i :| 0 <= i < |t1| && t1[i] == x;
        assert LexLess(a, x) && x in r2;
        var k :| 0 <= k < |r2| && r2[k] == x;
        assert k != 0 && r2[k] == t2[k - 1];
      }
      if x in t2 {
        var i :| 0 <= i < |t2| && t2[i] == x;
        assert LexLess(b, x) && x in r1;
        var k :| 0 <= k < |r1| && r1[k] == x;
        assert k != 0 && r1[k] == t1[k - 1];
      }
    }
    StrictlyAscendingUnique(t1, t2);
    assert r1 == [a] + t1 && r2 == [b] + t2;
  }

  /** Sorting by a key that is different for every element yields strictly
      ascending keys. */
  lemma SortedDistinctKeysAscending<T>(s: seq<T>, key: T -> string)
    requires forall i, j :: 0 <= i < j < |s| ==> key(s[i]) != key(s[j])
    requires SortedBy(s, key)
    ensures StrictlyAscending(Keys(s, key))
  {
    var k := Keys(s, key);
    forall i, j | 0 <= i < j < |k| ensures LexLess(k[i], k[j]) {
      LexLessTotal(k[i], k[j]);
    }
  }
}
